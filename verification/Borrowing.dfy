/** Borrowing over values: which ids a batch lends, how the loans are counted, and when a return frees an id. */
module Borrowing {
  import opened Sequences
  import opened QubitPool

  // ---------------------------------------------------------------- which ids may be lent

  /** The ids from `lo` that are in use by someone and not by the borrower, in ascending order. */
  function Candidates(status: seq<Status>, inUse: set<nat>, lo: nat): (r: seq<nat>)
    requires lo <= |status|
    ensures forall i :: 0 <= i < |r| ==> lo <= r[i] < |status| && InUse(status[r[i]]) && r[i] !in inUse
    ensures forall i, j :: 0 <= i < j < |r| ==> r[i] < r[j]
    decreases |status| - lo
  {
    if lo == |status| then []
    else if InUse(status[lo]) && lo !in inUse then [lo] + Candidates(status, inUse, lo + 1)
    else Candidates(status, inUse, lo + 1)
  }

  function FromIds(status: seq<Status>, lo: nat): set<nat> { set i: nat | lo <= i < |status| && InUse(status[i]) }

  lemma {:induction false} CountFrom(status: seq<Status>, inUse: set<nat>, lo: nat)
    requires lo <= |status|
    ensures |Candidates(status, inUse, lo)| == |FromIds(status, lo) - inUse|
    decreases |status| - lo
  {
    hide FromIds, InUse;
    if lo == |status| {
      FromNone(status);
    } else {
      CountFrom(status, inUse, lo + 1);
      FromNext(status, lo);
      var from, next := FromIds(status, lo), FromIds(status, lo + 1);
      if lo in from && lo !in inUse {
        assert from - inUse == (next - inUse) + {lo};
      } else {
        assert from - inUse == next - inUse;
      }
    }
  }

  lemma FromNone(status: seq<Status>)
    ensures FromIds(status, |status|) == {}
  {
  }

  lemma FromNext(status: seq<Status>, lo: nat)
    requires lo < |status|
    ensures FromIds(status, lo) == FromIds(status, lo + 1) + if InUse(status[lo]) then {lo} else {}
    ensures lo !in FromIds(status, lo + 1)
  {
  }

  /** When everything the borrower uses is in use, the count the manager computes is the number of candidates. */
  lemma CandidateCount(status: seq<Status>, inUse: set<nat>)
    requires inUse <= InUseIds(status)
    ensures |Candidates(status, inUse, 0)| == |InUseIds(status)| - |inUse|
  {
    CountFrom(status, inUse, 0);
    assert FromIds(status, 0) == InUseIds(status);
  }

  /** A loan only changes counts. */
  lemma {:induction false} CandidatesSame(status: seq<Status>, status2: seq<Status>, inUse: set<nat>, lo: nat)
    requires lo <= |status| == |status2| && forall i :: 0 <= i < |status| ==> InUse(status[i]) == InUse(status2[i])
    ensures Candidates(status, inUse, lo) == Candidates(status2, inUse, lo)
    decreases |status| - lo
  {
    if lo < |status| {
      CandidatesSame(status, status2, inUse, lo + 1);
    }
  }

  /** Behind the first candidate are the others. */
  lemma {:induction false} CandidatesNext(status: seq<Status>, inUse: set<nat>, lo: nat)
    requires lo <= |status| && Candidates(status, inUse, lo) != []
    ensures var c := Candidates(status, inUse, lo); Candidates(status, inUse, c[0] + 1) == c[1..]
    decreases |status| - lo
  {
    if !(InUse(status[lo]) && lo !in inUse) {
      CandidatesNext(status, inUse, lo + 1);
    }
  }

  // ---------------------------------------------------------------- loans

  function Lend(s: Status): Status { if s.Lent? then Lent(s.extra + 1) else s }

  function LendAll(status: seq<Status>, ids: seq<nat>): (r: seq<Status>)
    ensures |r| == |status|
    ensures forall i :: 0 <= i < |r| ==> r[i] == if i in ids then Lend(status[i]) else status[i]
  {
    seq(|status|, i requires 0 <= i < |status| => if i in ids then Lend(status[i]) else status[i])
  }

  lemma LendKeeps(p: Pool, o: Options, ids: seq<nat>)
    requires Proper(p, o)
    ensures Proper(p.(status := LendAll(p.status, ids)), o)
    ensures InUseIds(LendAll(p.status, ids)) == InUseIds(p.status)
    ensures DisabledIds(LendAll(p.status, ids)) == DisabledIds(p.status)
  {
    hide NoDuplicates, LendAll;
  }

  function Min(a: int, b: int): int { if a < b then a else b }

  /** How many of `n` a batch borrows before it allocates. */
  function Borrowable(p: Pool, inUse: set<nat>, n: nat): (m: nat)
    ensures m <= n && m <= |Candidates(p.status, inUse, 0)|
  {
    Min(|Candidates(p.status, inUse, 0)|, n)
  }

  function LentPart(p: Pool, inUse: set<nat>, n: nat): seq<nat> {
    Candidates(p.status, inUse, 0)[..Borrowable(p, inUse, n)]
  }

  /** The loans of a batch taken, before anything is allocated. */
  function AfterLoans(p: Pool, inUse: set<nat>, n: nat): Pool { p.(status := LendAll(p.status, LentPart(p, inUse, n))) }

  /**
   Borrows `n` ids: candidates first, then ids allocated for it; when
   those run out, only the allocations are undone.
   */
  function BorrowMany(p: Pool, o: Options, inUse: set<nat>, n: nat): (Option<seq<nat>>, Pool)
    requires Proper(p, o)
  {
    var p1 := AfterLoans(p, inUse, n);
    var more := n - Borrowable(p, inUse, n);
    LendKeeps(p, o, LentPart(p, inUse, n));
    var (ids, p2) := Grab(p1, o, Lent(0), more);
    if |ids| == more then (Some(LentPart(p, inUse, n) + ids), p2)
    else
      RollBackRestores(p1, o, Lent(0), more);
      (None, ReleaseAll(p2, o, ids))
  }

  /** One id: a candidate, or an ordinary allocation. */
  function BorrowOne(p: Pool, o: Options, inUse: set<nat>): (Option<nat>, Pool)
    requires Proper(p, o)
  {
    var ids := Candidates(p.status, inUse, 0);
    if ids == [] then Allocate(p, o, Allocated)
    else (Some(ids[0]), p.(status := LendAll(p.status, [ids[0]])))
  }

  function Return(p: Pool, o: Options, q: nat): Pool
    requires q < |p.status|
  {
    match p.status[q]
    case Lent(k) => if k == 0 then Release(p, o, q) else p.(status := p.status[q := Lent(k - 1)])
    case _ => p
  }

  // ---------------------------------------------------------------- a batch is exact

  /** The parts of a batch: what is lent and what is allocated. */
  lemma BatchParts(p: Pool, o: Options, inUse: set<nat>, n: nat) returns (ids: seq<nat>)
    requires Proper(p, o) && BorrowMany(p, o, inUse, n).0.Some?
    ensures var (r, p2) := BorrowMany(p, o, inUse, n);
      && r.value == LentPart(p, inUse, n) + ids && |LentPart(p, inUse, n)| + |ids| == n && NoDuplicates(ids)
      && (forall q :: q in ids ==> q !in InUseIds(p.status) && q !in DisabledIds(p.status))
      && InUseIds(p2.status) == InUseIds(p.status) + (set q | q in ids)
      && DisabledIds(p2.status) == DisabledIds(p.status)
  {
    hide InUseIds, DisabledIds, Proper, Grab, AfterLoans, Candidates, NoDuplicates;
    var p1, more := AfterLoans(p, inUse, n), n - Borrowable(p, inUse, n);
    AfterLoansKeeps(p, o, inUse, n);
    GrabIds(p1, o, Lent(0), more);
    GrabbedNotDisabled(p1, o, Lent(0), more);
    ids := Grab(p1, o, Lent(0), more).0;
  }

  /**
   A successful batch yields `n` different ids, none of them used by the borrower or disabled; exactly
   as many as possible were already in use, and the others were free or are new.
   */
  lemma BorrowExact(p: Pool, o: Options, inUse: set<nat>, n: nat)
    requires Proper(p, o) && inUse <= InUseIds(p.status) && BorrowMany(p, o, inUse, n).0.Some?
    ensures var (r, p2) := BorrowMany(p, o, inUse, n);
      var m := Min(n, |InUseIds(p.status)| - |inUse|);
      && |r.value| == n && NoDuplicates(r.value)
      && (forall q :: q in r.value ==> q !in inUse && q !in DisabledIds(p.status))
      && 0 <= m <= n
      && (forall i :: 0 <= i < m ==> r.value[i] in InUseIds(p.status))
      && (forall i :: m <= i < n ==> r.value[i] !in InUseIds(p.status))
      && InUseIds(p2.status) == InUseIds(p.status) + (set q | q in r.value)
      && DisabledIds(p2.status) == DisabledIds(p.status)
  {
    hide *;
    var lent := LentPart(p, inUse, n);
    var ids := BatchParts(p, o, inUse, n);
    LentCount(p, inUse, n);
    LentInUse(p, inUse, n);
    JoinDistinct(lent, ids);
    JoinWhere(lent, ids, InUseIds(p.status));
  }

  lemma LentCount(p: Pool, inUse: set<nat>, n: nat)
    requires inUse <= InUseIds(p.status)
    ensures |LentPart(p, inUse, n)| == Min(n, |InUseIds(p.status)| - |inUse|) <= n
  {
    hide Candidates, InUseIds;
    CandidateCount(p.status, inUse);
  }

  lemma JoinDistinct(s: seq<nat>, t: seq<nat>)
    requires NoDuplicates(s) && NoDuplicates(t) && forall q :: q in s ==> q !in t
    ensures NoDuplicates(s + t)
  {
    forall i, j | 0 <= i < j < |s + t| ensures (s + t)[i] != (s + t)[j] {
      if i < |s| <= j {
        assert (s + t)[i] in s && (s + t)[j] in t;
      }
    }
  }

  lemma JoinWhere(s: seq<nat>, t: seq<nat>, a: set<nat>)
    requires (forall q :: q in s ==> q in a) && forall q :: q in t ==> q !in a
    ensures forall q :: q in s + t <==> q in s || q in t
    ensures forall i :: 0 <= i < |s| ==> (s + t)[i] in a
    ensures forall i :: |s| <= i < |s + t| ==> (s + t)[i] !in a
    ensures a + (set q | q in s + t) == a + (set q | q in t)
  {
    assert forall i :: 0 <= i < |s| ==> (s + t)[i] in s;
    assert forall i :: |s| <= i < |s + t| ==> (s + t)[i] in t;
  }

  lemma AfterLoansKeeps(p: Pool, o: Options, inUse: set<nat>, n: nat)
    requires Proper(p, o)
    ensures var p1 := AfterLoans(p, inUse, n);
      && Proper(p1, o) && InUseIds(p1.status) == InUseIds(p.status) && DisabledIds(p1.status) == DisabledIds(p.status)
      && p1.free == p.free
  {
    hide *;
    LoansAre(p, inUse, n);
    LendKeeps(p, o, LentPart(p, inUse, n));
  }

  lemma LoansAre(p: Pool, inUse: set<nat>, n: nat)
    ensures AfterLoans(p, inUse, n) == p.(status := LendAll(p.status, LentPart(p, inUse, n)))
  {
  }

  lemma LentInUse(p: Pool, inUse: set<nat>, n: nat)
    ensures NoDuplicates(LentPart(p, inUse, n))
    ensures forall q :: q in LentPart(p, inUse, n) ==>
      q < |p.status| && q in InUseIds(p.status) && q !in inUse && q !in DisabledIds(p.status)
  {
  }

  lemma {:induction false} GrabbedNotDisabled(p: Pool, o: Options, mark: Status, n: nat)
    requires Proper(p, o) && InUse(mark)
    ensures forall q :: q in Grab(p, o, mark, n).0 ==> q !in DisabledIds(p.status)
  {
    hide InUseIds, DisabledIds, Proper;
    GrabIds(p, o, mark, n);
    forall q | q in Grab(p, o, mark, n).0 ensures q !in DisabledIds(p.status) {
      InUseNotDisabled(Grab(p, o, mark, n).1.status, q);
    }
  }

  lemma InUseNotDisabled(status: seq<Status>, q: nat)
    requires q in InUseIds(status)
    ensures q !in DisabledIds(status)
  {
  }

  /** A batch fails exactly when the capacity is fixed and too few ids are left to lend or allocate. */
  lemma BorrowFailsIff(p: Pool, o: Options, inUse: set<nat>, n: nat)
    requires Proper(p, o) && inUse <= InUseIds(p.status)
    ensures BorrowMany(p, o, inUse, n).0.None?
      <==> !o.mayExtend && n > |InUseIds(p.status)| - |inUse| + |p.free|
  {
    hide InUseIds, Proper, Grab, AfterLoans, Candidates;
    CandidateCount(p.status, inUse);
    AfterLoansKeeps(p, o, inUse, n);
    var p1, more := AfterLoans(p, inUse, n), n - Borrowable(p, inUse, n);
    GrabGrows(p1, o, Lent(0), more);
    if !o.mayExtend {
      GrabFixed(p1, o, Lent(0), more);
    }
  }

  /**
   A failed batch gives the free ids back but keeps the loans it took: it leaves the pool as it was,
   up to the order of the free list, exactly when it borrowed no id that was allocated for borrowing.
   */
  lemma FailedBorrowIff(p: Pool, o: Options, inUse: set<nat>, n: nat)
    requires Proper(p, o) && BorrowMany(p, o, inUse, n).0.None?
    ensures var p2 := BorrowMany(p, o, inUse, n).1;
      && p2.free == (if o.encourageReuse then Reversed(p.free) else p.free)
      && p2.status == LendAll(p.status, LentPart(p, inUse, n))
      && (p2.status == p.status
          <==> forall q :: q in LentPart(p, inUse, n) ==> q < |p.status| && p.status[q].Allocated?)
  {
    hide Proper, Grab, ReleaseAll, Candidates, LentPart, LendAll, NoDuplicates;
    var p1, more := AfterLoans(p, inUse, n), n - Borrowable(p, inUse, n);
    AfterLoansKeeps(p, o, inUse, n);
    RollBackRestores(p1, o, Lent(0), more);
    LentNotFree(p, inUse, n);
    LendSame(p.status, LentPart(p, inUse, n));
  }

  /** Loans change no mark exactly when they are all of ids the program allocated itself. */
  lemma LendSame(status: seq<Status>, ids: seq<nat>)
    requires forall q :: q in ids ==> q < |status| && InUse(status[q])
    ensures LendAll(status, ids) == status <==> forall q :: q in ids ==> q < |status| && status[q].Allocated?
  {
    hide LendAll;
    if exists q :: q in ids && !status[q].Allocated? {
      var q :| q in ids && !status[q].Allocated?;
      assert LendAll(status, ids)[q] == Lend(status[q]) != status[q];
    }
  }

  /** A failed batch lent nothing exactly when there was nothing to lend. */
  lemma LentNone(p: Pool, o: Options, inUse: set<nat>, n: nat)
    requires Proper(p, o) && BorrowMany(p, o, inUse, n).0.None?
    ensures LentPart(p, inUse, n) == [] <==> Candidates(p.status, inUse, 0) == []
  {
    hide Proper, Candidates, AfterLoans;
    AfterLoansKeeps(p, o, inUse, n);
    assert Grab(AfterLoans(p, inUse, n), o, Lent(0), 0).0 == [];
  }

  lemma InUseIs(status: seq<Status>, q: nat)
    requires q in InUseIds(status)
    ensures q < |status| && InUse(status[q])
  {
  }

  // ---------------------------------------------------------------- the loans add up

  /** The multiset of outstanding loans agrees with the marks; nothing is disabled. */
  ghost predicate Balanced(p: Pool, out: multiset<nat>) {
    && (forall q :: q in out ==> q < |p.status|)
    && (forall q: nat :: q < |p.status| ==>
          match p.status[q]
          case Lent(k) => out[q] == k + 1
          case Free => out[q] == 0
          case Allocated => true
          case Disabled => false)
  }

  lemma {:induction false} Once(ids: seq<nat>, q: nat)
    requires NoDuplicates(ids)
    ensures multiset(ids)[q] == if q in ids then 1 else 0
  {
    if ids != [] {
      var n := |ids| - 1;
      Once(ids[..n], q);
      assert ids == ids[..n] + [ids[n]];
      assert multiset(ids) == multiset(ids[..n]) + multiset{ids[n]};
      assert ids[n] !in ids[..n];
    }
  }

  lemma LendBalanced(p: Pool, out: multiset<nat>, ids: seq<nat>)
    requires Balanced(p, out) && NoDuplicates(ids) && forall q :: q in ids ==> q < |p.status|
    ensures Balanced(p.(status := LendAll(p.status, ids)), out + multiset(ids))
      <==> forall q :: q in ids ==> !p.status[q].Free?
  {
    hide LendAll, NoDuplicates;
    var p2, out2 := p.(status := LendAll(p.status, ids)), out + multiset(ids);
    forall q: nat ensures out2[q] == out[q] + (if q in ids then 1 else 0) {
      Once(ids, q);
    }
    if exists q :: q in ids && p.status[q].Free? {
      var q :| q in ids && p.status[q].Free?;
      assert out2[q] == 1 && p2.status[q].Free?;
    }
  }

  lemma AllocateBalanced(p: Pool, o: Options, mark: Status, out: multiset<nat>)
    requires Proper(p, o) && Balanced(p, out) && (mark == Allocated || mark == Lent(0))
    ensures var (q, p2) := Allocate(p, o, mark);
      Balanced(p2, if q.Some? && mark.Lent? then out + multiset{q.value} else out)
  {
    hide Proper, NoDuplicates, Sequential;
    HasHead(p, o);
    if p.free != [] || o.mayExtend {
      var p1 := if p.free == [] then Extended(p) else p;
      if p.free == [] {
        ExtendedProper(p, o);
      }
      TakeProper(p1, o, mark);
      ExtendBalanced(p, out);
      TakeBalanced(p1, mark, out);
    }
  }

  lemma ExtendBalanced(p: Pool, out: multiset<nat>)
    requires Balanced(p, out)
    ensures Balanced(Extended(p), out)
  {
    forall q: nat | |p.status| <= q < |Extended(p).status| ensures Extended(p).status[q].Free? && out[q] == 0 {
      assert q !in out;
    }
  }

  lemma TakeBalanced(p: Pool, mark: Status, out: multiset<nat>)
    requires HeadInRange(p) && p.status[p.free[0]].Free? && Balanced(p, out) && (mark == Allocated || mark == Lent(0))
    ensures Balanced(Take(p, mark), if mark.Lent? then out + multiset{p.free[0]} else out)
  {
  }

  lemma {:induction false} GrabBalanced(p: Pool, o: Options, n: nat, out: multiset<nat>)
    requires Proper(p, o) && Balanced(p, out)
    ensures var (ids, p2) := Grab(p, o, Lent(0), n); Balanced(p2, out + multiset(ids))
  {
    hide Proper, Balanced, Allocate;
    if n == 0 {
      assert out + multiset([]) == out;
    } else {
      GrabBalanced(p, o, n - 1, out);
      var (ids, p1) := Grab(p, o, Lent(0), n - 1);
      AllocateBalanced(p1, o, Lent(0), out + multiset(ids));
      var q := Allocate(p1, o, Lent(0)).0;
      if q.Some? {
        assert multiset(ids + [q.value]) == multiset(ids) + multiset{q.value};
        assert out + multiset(ids + [q.value]) == out + multiset(ids) + multiset{q.value};
      }
    }
  }

  /** Marks that one ledger explains are the only ones it explains, among those that differ in loans. */
  lemma BalanceDecides(p: Pool, p2: Pool, out: multiset<nat>, ids: seq<nat>)
    requires Balanced(p, out) && Balanced(p2, out) && p2.status == LendAll(p.status, ids)
    ensures p2.status == p.status
  {
    hide LendAll;
    forall q | 0 <= q < |p.status| ensures p2.status[q] == p.status[q] {
    }
  }

  /** A batch that succeeds, or lends only ids the program allocated itself, keeps the balance. */
  lemma BorrowBalanced(p: Pool, o: Options, inUse: set<nat>, n: nat, out: multiset<nat>)
    requires Proper(p, o) && Balanced(p, out)
    ensures var (r, p2) := BorrowMany(p, o, inUse, n);
      && (r.Some? ==> Balanced(p2, out + multiset(r.value)))
      && (r.None? ==> (Balanced(p2, out) <==> p2.status == p.status))
  {
    hide *;
    var lent := LentPart(p, inUse, n);
    var ids := BatchIs(p, o, inUse, n);
    LentNotFree(p, inUse, n);
    LendBalanced(p, out, lent);
    LoansAre(p, inUse, n);
    AfterLoansKeeps(p, o, inUse, n);
    GrabBalanced(AfterLoans(p, inUse, n), o, n - |lent|, out + multiset(lent));
    var (r, p2) := BorrowMany(p, o, inUse, n);
    if r.Some? {
      assert multiset(lent + ids) == multiset(lent) + multiset(ids);
      assert out + multiset(lent + ids) == out + multiset(lent) + multiset(ids);
    } else {
      FailedBorrowIff(p, o, inUse, n);
      if p2.status == p.status {
        BalancedSame(p, p2, out);
      }
      if Balanced(p2, out) {
        BalanceDecides(p, p2, out, lent);
      }
    }
  }

  /** What a batch allocates behind what it lends. */
  lemma BatchIs(p: Pool, o: Options, inUse: set<nat>, n: nat) returns (ids: seq<nat>)
    requires Proper(p, o)
    ensures |LentPart(p, inUse, n)| <= n && Proper(AfterLoans(p, inUse, n), o)
    ensures var (r, p2) := BorrowMany(p, o, inUse, n);
      r.Some? ==>
        && r.value == LentPart(p, inUse, n) + ids
        && (ids, p2) == Grab(AfterLoans(p, inUse, n), o, Lent(0), n - |LentPart(p, inUse, n)|)
  {
    hide Proper, Grab, ReleaseAll, Candidates, AfterLoans;
    AfterLoansKeeps(p, o, inUse, n);
    ids := Grab(AfterLoans(p, inUse, n), o, Lent(0), n - |LentPart(p, inUse, n)|).0;
  }

  lemma LentNotFree(p: Pool, inUse: set<nat>, n: nat)
    ensures NoDuplicates(LentPart(p, inUse, n))
    ensures forall q :: q in LentPart(p, inUse, n) ==> q < |p.status| && InUse(p.status[q]) && !p.status[q].Free?
  {
    hide LentPart, InUseIds, DisabledIds, NoDuplicates;
    LentInUse(p, inUse, n);
    forall q | q in LentPart(p, inUse, n) ensures q < |p.status| && InUse(p.status[q]) {
      InUseIs(p.status, q);
    }
  }

  lemma BalancedSame(p: Pool, p2: Pool, out: multiset<nat>)
    requires Balanced(p, out) && p2.status == p.status
    ensures Balanced(p2, out)
  {
  }

  /** A return takes one loan off; it frees the id exactly when that was the last loan of an id only lent. */
  lemma ReturnBalanced(p: Pool, o: Options, q: nat, out: multiset<nat>)
    requires Proper(p, o) && Balanced(p, out) && q in out
    ensures q < |p.status| && Proper(Return(p, o, q), o) && Balanced(Return(p, o, q), out - multiset{q})
    ensures Return(p, o, q).status[q].Free? <==> !p.status[q].Allocated? && out[q] == 1
  {
    hide Proper;
    if p.status[q] == Lent(0) {
      ReleaseProper(p, o, q);
    } else if p.status[q].Lent? {
      RelentProper(p, o, q);
    }
  }

  lemma RelentProper(p: Pool, o: Options, q: nat)
    requires Proper(p, o) && q < |p.status| && p.status[q].Lent? && p.status[q].extra > 0
    ensures Proper(Return(p, o, q), o)
  {
    hide NoDuplicates;
  }

  datatype LoanEvent = Allocating | Releasing(q: nat) | Borrowing(inUse: set<nat>, n: nat) | Returning(q: nat)

  /** Only what was allocated and is lent to nobody is released, only loans are returned, and batches succeed. */
  predicate InScope(p: Pool, o: Options, out: multiset<nat>, e: LoanEvent)
    requires Proper(p, o)
  {
    match e
    case Allocating => true
    case Releasing(q) => q < |p.status| && p.status[q].Allocated? && q !in out
    case Borrowing(inUse, n) => BorrowMany(p, o, inUse, n).0.Some?
    case Returning(q) => q in out && q < |p.status|
  }

  function LoanStep(p: Pool, o: Options, out: multiset<nat>, e: LoanEvent): (Pool, multiset<nat>)
    requires Proper(p, o) && InScope(p, o, out, e)
  {
    match e
    case Allocating => (Allocate(p, o, Allocated).1, out)
    case Releasing(q) => (Release(p, o, q), out)
    case Borrowing(inUse, n) => var (r, p2) := BorrowMany(p, o, inUse, n); (p2, out + multiset(r.value))
    case Returning(q) => (Return(p, o, q), out - multiset{q})
  }

  lemma BorrowProper(p: Pool, o: Options, inUse: set<nat>, n: nat)
    requires Proper(p, o) && BorrowMany(p, o, inUse, n).0.Some?
    ensures Proper(BorrowMany(p, o, inUse, n).1, o)
  {
    hide Proper, Grab, LentPart, AfterLoans;
    AfterLoansKeeps(p, o, inUse, n);
  }

  lemma LoanStepBalanced(p: Pool, o: Options, out: multiset<nat>, e: LoanEvent)
    requires Proper(p, o) && Balanced(p, out) && InScope(p, o, out, e)
    ensures var (p2, out2) := LoanStep(p, o, out, e); Proper(p2, o) && Balanced(p2, out2)
  {
    hide Proper, Balanced, BorrowMany, Allocate, Release, Return;
    match e
    case Allocating =>
      AllocateProper(p, o, Allocated);
      AllocateBalanced(p, o, Allocated, out);
    case Releasing(q) =>
      ReleaseProper(p, o, q);
      ReleaseBalanced(p, o, q, out);
    case Borrowing(inUse, n) =>
      BorrowProper(p, o, inUse, n);
      BorrowBalanced(p, o, inUse, n, out);
    case Returning(q) => ReturnBalanced(p, o, q, out);
  }

  lemma ReleaseBalanced(p: Pool, o: Options, q: nat, out: multiset<nat>)
    requires Balanced(p, out) && q < |p.status| && q !in out
    ensures Balanced(Release(p, o, q), out)
  {
  }

  lemma InitialBalanced(n: nat)
    ensures Balanced(Initial(n), multiset{})
  {
  }

  /** The pool and the loans outstanding after the events; an event out of scope is passed over. */
  ghost function LoanRun(n: nat, o: Options, events: seq<LoanEvent>): (r: (Pool, multiset<nat>))
    requires n > 0
    ensures Proper(r.0, o) && Balanced(r.0, r.1)
  {
    if events == [] then
      InitialProper(n, o);
      InitialBalanced(n);
      (Initial(n), multiset{})
    else
      var (p, out) := LoanRun(n, o, events[..|events| - 1]);
      var e := events[|events| - 1];
      if !InScope(p, o, out, e) then (p, out)
      else
        LoanStepBalanced(p, o, out, e);
        LoanStep(p, o, out, e)
  }

  /**
   Through any run, the mark of an id allocated only for borrowing, minus the base mark, plus one, is
   its number of outstanding loans, and the return of the last one frees it.
   */
  lemma LoansConserved(n: nat, o: Options, events: seq<LoanEvent>, q: nat)
    requires n > 0
    ensures var (p, out) := LoanRun(n, o, events);
      q < |p.status| ==>
        && (p.status[q].Lent? ==> p.status[q].extra + 1 == out[q])
        && (p.status[q].Lent? && q in out ==> (Return(p, o, q).status[q].Free? <==> out[q] == 1))
        && !p.status[q].Disabled?
  {
    hide Proper, LoanRun, Return;
    var (p, out) := LoanRun(n, o, events);
    if q in out {
      ReturnBalanced(p, o, q, out);
    }
  }

  // ---------------------------------------------------------------- one at a time

  /**
   An id that a batch of one allocates is free again after its return. An id that a single borrow
   allocates is not: whatever a single borrow yields is in use after its return, so borrow and return
   restore what is in use exactly when there was an id to lend.
   */
  lemma SingleBorrowIff(p: Pool, o: Options, inUse: set<nat>)
    requires Proper(p, o) && BorrowOne(p, o, inUse).0.Some?
    ensures var (r, p2) := BorrowOne(p, o, inUse);
      && r.value < |p2.status|
      && InUseIds(Return(p2, o, r.value).status) == InUseIds(p.status) + {r.value}
      && (InUseIds(Return(p2, o, r.value).status) == InUseIds(p.status) <==> Candidates(p.status, inUse, 0) != [])
  {
    hide Proper, LendAll, Allocate;
    var cand := Candidates(p.status, inUse, 0);
    var (r, p2) := BorrowOne(p, o, inUse);
    if cand == [] {
      AllocateProper(p, o, Allocated);
    } else {
      assert p2.status[cand[0]] == Lend(p.status[cand[0]]);
    }
  }

  /** A single borrow yields an id that exists, is not disabled, and is not used by the borrower. */
  lemma BorrowOneElsewhere(p: Pool, o: Options, inUse: set<nat>)
    requires Proper(p, o) && inUse <= InUseIds(p.status) && BorrowOne(p, o, inUse).0.Some?
    ensures var q := BorrowOne(p, o, inUse).0.value; q !in inUse && q !in DisabledIds(p.status)
  {
    hide Proper, LendAll, Allocate, InUseIds;
    if Candidates(p.status, inUse, 0) == [] {
      AllocateProper(p, o, Allocated);
    } else {
      LentNotDisabled(p.status, Candidates(p.status, inUse, 0)[0]);
    }
  }

  lemma LentNotDisabled(status: seq<Status>, q: nat)
    requires q < |status| && InUse(status[q])
    ensures q !in DisabledIds(status)
  {
  }

  /** A batch of one, by contrast, is undone by its return. */
  lemma BatchOfOneReturned(p: Pool, o: Options, inUse: set<nat>)
    requires Proper(p, o) && BorrowMany(p, o, inUse, 1).0.Some? && |BorrowMany(p, o, inUse, 1).0.value| == 1
    ensures var (r, p2) := BorrowMany(p, o, inUse, 1);
      && r.value[0] < |p2.status|
      && InUseIds(Return(p2, o, r.value[0]).status) == InUseIds(p.status)
  {
    hide Proper, LendAll, Allocate, InUseIds, DisabledIds;
    var cand := Candidates(p.status, inUse, 0);
    AfterLoansKeeps(p, o, inUse, 1);
    var (r, p2) := BorrowMany(p, o, inUse, 1);
    var q := r.value[0];
    if cand == [] {
      assert LentPart(p, inUse, 1) == [];
      var p1 := AfterLoans(p, inUse, 1);
      GrabOne(p1, o);
      ReleaseProper(p2, o, q);
    } else {
      assert LentPart(p, inUse, 1) == [cand[0]];
      LentOnce(p, o, cand[0]);
    }
  }

  lemma GrabOne(p: Pool, o: Options)
    requires Proper(p, o) && |Grab(p, o, Lent(0), 1).0| == 1
    ensures var (ids, p2) := Grab(p, o, Lent(0), 1);
      ids[0] < |p2.status| && p2.status[ids[0]] == Lent(0) && InUseIds(p2.status) == InUseIds(p.status) + {ids[0]}
      && ids[0] !in InUseIds(p.status)
  {
    hide Proper, InUseIds, DisabledIds, Allocate, Grab;
    AllocateProper(p, o, Lent(0));
    GrabOneIs(p, o);
  }

  lemma GrabOneIs(p: Pool, o: Options)
    requires Proper(p, o)
    ensures var (q, p2) := Allocate(p, o, Lent(0));
      Grab(p, o, Lent(0), 1) == if q.Some? then ([q.value], p2) else ([], p)
  {
    hide Proper, Allocate;
    var none: seq<nat> := [];
    assert Grab(p, o, Lent(0), 0) == (none, p);
    AllocateProper(p, o, Lent(0));
    var q := Allocate(p, o, Lent(0)).0;
    if q.Some? {
      assert none + [q.value] == [q.value];
    }
  }

  lemma LentOnce(p: Pool, o: Options, q: nat)
    requires q < |p.status| && InUse(p.status[q])
    ensures InUseIds(Return(p.(status := LendAll(p.status, [q])), o, q).status) == InUseIds(p.status)
  {
  }
}
