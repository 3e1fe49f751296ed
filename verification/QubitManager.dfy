/**
 The qubit manager: one array whose values are links of the free list, marks, and counts of loans, with
 a stack of operation frames that says which qubits the running operation uses.
 */
module QubitManagement {
  import opened Sequences
  import opened LinkedLists
  import opened QubitPool
  import opened Borrowing

  const MIN_QUBIT_CAPACITY: nat := 8

  function Capacity(qubitCapacity: int): (n: nat)
    ensures n > 0
  {
    if qubitCapacity <= 0 then MIN_QUBIT_CAPACITY else qubitCapacity
  }

  /** The status a value of the array stands for when the array has `n` elements. */
  function StatusOf(v: int, n: nat): Status {
    if v < n + 1 then Free
    else if v == n + 1 then Allocated
    else if v == n + 2 then Disabled
    else Lent(v - (n + 3))
  }

  /** The value the doubling writes; links of the old list have no case and become 0. */
  function Remarked(v: int, n: nat): int {
    if v == n then n
    else if v == n + 1 then 2 * n + 1
    else if v == n + 2 then 2 * n + 2
    else if v >= n + 3 then v - (n + 3) + (2 * n + 3)
    else 0
  }

  /** Doubling is invisible: the new value stands for the same status, with the same count of loans. */
  lemma SameStatus(v: int, n: nat)
    requires v >= 0
    ensures Remarked(v, n) >= 0 && StatusOf(Remarked(v, n), 2 * n) == StatusOf(v, n)
  {
  }

  ghost predicate Viewed(a: seq<int>, status: seq<Status>) {
    |a| == |status| && forall i :: 0 <= i < |a| ==> a[i] >= 0 && StatusOf(a[i], |a|) == status[i]
  }

  /** The free ids are linked from `free`; a queue also knows its last one. */
  ghost predicate Threaded(a: seq<int>, p: Pool, o: Options, free: int, freeTail: int) {
    && Chain(a, |a|, p.free)
    && free == (if p.free == [] then |a| else p.free[0])
    && 0 <= freeTail < |a|
    && (!o.mayExtend && !o.encourageReuse && p.free != [] ==> freeTail == p.free[|p.free| - 1])
  }

  lemma ViewedUpdate(a: seq<int>, status: seq<Status>, i: nat, v: int)
    requires Viewed(a, status) && i < |a| && v >= 0
    ensures Viewed(a[i := v], status[i := StatusOf(v, |a|)])
  {
    hide StatusOf;
  }

  lemma ThreadedUpdate(a: seq<int>, p: Pool, p2: Pool, o: Options, free: int, freeTail: int, i: nat, v: int)
    requires Threaded(a, p, o, free, freeTail) && i < |a| && i !in p.free && p2.free == p.free
    ensures Threaded(a[i := v], p2, o, free, freeTail)
  {
    hide Chain;
    ChainFrame(a, a[i := v], |a|, p.free, [i]);
  }

  lemma InUseNotFree(p: Pool, o: Options, q: nat)
    requires Proper(p, o) && q < |p.status| && !p.status[q].Free?
    ensures q !in p.free
  {
  }

  /** The qubits allocated or borrowed in an operation, as often as that was done, and those in its arguments. */
  datatype Frame = Frame(locals: multiset<nat>, arguments: seq<nat>)

  /** The locals of the running operation with `ids` added. */
  function AddLocals(stack: seq<Frame>, ids: seq<nat>): (r: seq<Frame>)
    requires stack != []
    ensures |r| == |stack|
  {
    var top := stack[|stack| - 1];
    stack[|stack| - 1 := top.(locals := top.locals + multiset(ids))]
  }

  function DropLocal(stack: seq<Frame>, id: nat): (r: seq<Frame>)
    requires stack != []
    ensures |r| == |stack|
  {
    var top := stack[|stack| - 1];
    stack[|stack| - 1 := top.(locals := top.locals - multiset{id})]
  }

  predicate IsLocal(stack: seq<Frame>, id: nat) { stack != [] && id in stack[|stack| - 1].locals }

  lemma LocalsNone(stack: seq<Frame>)
    requires stack != []
    ensures AddLocals(stack, []) == stack
  {
    assert stack[|stack| - 1].locals + multiset([]) == stack[|stack| - 1].locals;
  }

  lemma LocalsMore(stack: seq<Frame>, ids: seq<nat>, id: nat)
    requires stack != []
    ensures AddLocals(AddLocals(stack, ids), [id]) == AddLocals(stack, ids + [id])
  {
    var m := stack[|stack| - 1].locals;
    assert m + multiset(ids) + multiset([id]) == m + multiset(ids + [id]);
  }

  lemma LocalsDropped(stack: seq<Frame>, ids: seq<nat>)
    requires stack != [] && ids != []
    ensures IsLocal(AddLocals(stack, ids), ids[0])
    ensures DropLocal(AddLocals(stack, ids), ids[0]) == AddLocals(stack, ids[1..])
  {
    var m := stack[|stack| - 1].locals;
    assert ids == [ids[0]] + ids[1..];
    assert m + multiset(ids) - multiset{ids[0]} == m + multiset(ids[1..]);
  }

  function FrameIds(f: Frame, status: seq<Status>): set<nat> {
    (set q | q in f.locals && !(q < |status| && status[q].Disabled?))
    + (set q | q in f.arguments && !(q < |status| && status[q].Disabled?))
  }

  /** A batch for the running operation; when it fails, the loans it took stay among the locals. */
  function BorrowInFrame(p: Pool, o: Options, stack: seq<Frame>, n: nat): (Option<seq<nat>>, Pool, seq<Frame>)
    requires Proper(p, o) && stack != []
  {
    var inUse := FrameIds(stack[|stack| - 1], p.status);
    var (r, p2) := Borrowing.BorrowMany(p, o, inUse, n);
    (r, p2, AddLocals(stack, if r.Some? then r.value else LentPart(p, inUse, n)))
  }

  /** No id of some is a local or an argument of the running operation. */
  predicate NotUsedBy(f: Frame, ids: seq<nat>) { forall q :: q in ids ==> q !in f.locals && q !in f.arguments }

  /** An operation is lent no qubit that it has as a local or an argument already, in a batch or alone. */
  lemma BorrowsFromOthers(p: Pool, o: Options, stack: seq<Frame>, n: nat)
    requires Proper(p, o) && stack != []
    requires forall q :: q in stack[|stack| - 1].locals || q in stack[|stack| - 1].arguments ==>
      q in InUseIds(p.status) || q in DisabledIds(p.status)
    ensures var f := stack[|stack| - 1];
      && (BorrowInFrame(p, o, stack, n).0.Some? ==> NotUsedBy(f, BorrowInFrame(p, o, stack, n).0.value))
      && (BorrowOne(p, o, FrameIds(f, p.status)).0.Some? ==>
            NotUsedBy(f, [BorrowOne(p, o, FrameIds(f, p.status)).0.value]))
  {
    hide Proper, Borrowing.BorrowMany, LentPart, AddLocals, BorrowOne;
    var f := stack[|stack| - 1];
    var inUse := FrameIds(f, p.status);
    UsedInUse(f, p.status);
    if BorrowInFrame(p, o, stack, n).0.Some? {
      BorrowExact(p, o, inUse, n);
    }
    if BorrowOne(p, o, inUse).0.Some? {
      BorrowOneElsewhere(p, o, inUse);
    }
  }

  lemma UsedInUse(f: Frame, status: seq<Status>)
    requires forall q :: q in f.locals || q in f.arguments ==> q in InUseIds(status) || q in DisabledIds(status)
    ensures FrameIds(f, status) <= InUseIds(status)
    ensures forall q :: q in f.locals || q in f.arguments ==> q in FrameIds(f, status) || q in DisabledIds(status)
  {
  }

  /**
   A failed batch gives the free ids back but keeps the loans it took, in the marks and among the locals,
   where they count as used by the operation that has no hold of them. It changes nothing but the order
   of the free list exactly when there was nothing to lend; the marks alone are as before exactly when
   it lent no id allocated for borrowing.
   */
  lemma FailedBorrowIff(p: Pool, o: Options, stack: seq<Frame>, n: nat)
    requires Proper(p, o) && stack != [] && BorrowInFrame(p, o, stack, n).0.None?
    ensures var inUse := FrameIds(stack[|stack| - 1], p.status);
      var lent, (r, p2, stack2) := LentPart(p, inUse, n), BorrowInFrame(p, o, stack, n);
      && p2.free == (if o.encourageReuse then Reversed(p.free) else p.free)
      && p2.status == LendAll(p.status, lent)
      && FrameIds(stack2[|stack| - 1], p2.status) == inUse + set q | q in lent
      && (p2.status == p.status <==> forall q :: q in lent ==> q < |p.status| && p.status[q].Allocated?)
      && (p2.status == p.status && stack2 == stack <==> Candidates(p.status, inUse, 0) == [])
  {
    hide *;
    var inUse := FrameIds(stack[|stack| - 1], p.status);
    InFrame(p, o, stack, n);
    Borrowing.FailedBorrowIff(p, o, inUse, n);
    LentInUse(p, inUse, n);
    LentNone(p, o, inUse, n);
    LocalsNone(stack);
    FrameWithLoans(stack, p, BorrowMany(p, o, inUse, n).1, LentPart(p, inUse, n));
  }

  lemma InFrame(p: Pool, o: Options, stack: seq<Frame>, n: nat)
    requires Proper(p, o) && stack != [] && BorrowInFrame(p, o, stack, n).0.None?
    ensures var inUse := FrameIds(stack[|stack| - 1], p.status);
      var (r, p2) := BorrowMany(p, o, inUse, n);
      r.None? && BorrowInFrame(p, o, stack, n) == (r, p2, AddLocals(stack, LentPart(p, inUse, n)))
  {
    hide Proper, BorrowMany, LentPart, AddLocals;
  }

  /** Loans among the locals count as used; they are seen there as soon as there is one. */
  lemma FrameWithLoans(stack: seq<Frame>, p: Pool, p2: Pool, lent: seq<nat>)
    requires stack != [] && p2.status == LendAll(p.status, lent)
    requires forall q :: q in lent ==> q !in DisabledIds(p.status)
    ensures FrameIds(AddLocals(stack, lent)[|stack| - 1], p2.status)
      == FrameIds(stack[|stack| - 1], p.status) + set q | q in lent
    ensures lent != [] ==> AddLocals(stack, lent) != stack
    ensures lent == [] ==> p2.status == p.status
  {
    hide LendAll;
    SameDisabled(p.status, p2.status, lent);
    if lent != [] {
      assert multiset(lent)[lent[0]] > 0;
      var top := stack[|stack| - 1];
      assert (top.locals + multiset(lent))[lent[0]] > top.locals[lent[0]];
    }
  }

  lemma SameDisabled(status: seq<Status>, status2: seq<Status>, lent: seq<nat>)
    requires status2 == LendAll(status, lent) && forall q :: q in lent ==> q !in DisabledIds(status)
    ensures forall q: nat :: (q < |status2| && status2[q].Disabled?) <==> (q < |status| && status[q].Disabled?)
    ensures forall q :: q in lent ==> !(q < |status| && status[q].Disabled?)
    ensures lent == [] ==> status2 == status
  {
    hide LendAll;
  }

  /** How a release or a return ends: the last two are exceptions in the source. */
  datatype ReleaseResult = Released | StaysDisabled | NotAllocated | NotLocal

  /** The ids of `inUse` from `lo` on, the lowest first. */
  ghost predicate StackFrom(stack: seq<nat>, inUse: set<nat>, lo: int) {
    && (forall i, j :: 0 <= i < j < |stack| ==> stack[i] < stack[j])
    && (forall q :: q in stack <==> q in inUse && q >= lo)
  }

  class QubitManager {
    var qubits: array<int>
    var none: int
    var allocatedMark: int
    var disabledMark: int
    var allocatedForBorrowing: int
    var free: int
    var freeTail: int
    var numAllocatedQubits: int
    var numDisabledQubits: int
    const mayExtendCapacity: bool
    const encourageReuse: bool
    var operationStack: seq<Frame>

    /** What the array stands for. */
    ghost var pool: Pool

    ghost function Opts(): Options { Options(mayExtendCapacity, encourageReuse) }

    predicate MarksSet()
      reads this
    {
      && none == qubits.Length && allocatedMark == qubits.Length + 1 && disabledMark == qubits.Length + 2
      && allocatedForBorrowing == qubits.Length + 3
    }

    ghost predicate Counted()
      reads this
    {
      numAllocatedQubits == |InUseIds(pool.status)| && numDisabledQubits == |DisabledIds(pool.status)|
    }

    ghost predicate Valid()
      reads this, qubits
    {
      && MarksSet() && Counted() && operationStack != []
      && Proper(pool, Opts())
      && Viewed(qubits[..], pool.status)
      && Threaded(qubits[..], pool, Opts(), free, freeTail)
    }

    constructor (qubitCapacity: int, mayExtendCapacity: bool, encourageReuse: bool)
      ensures Valid() && fresh(qubits) && operationStack == [Frame(multiset{}, [])]
      ensures pool == Initial(Capacity(qubitCapacity))
      ensures this.mayExtendCapacity == mayExtendCapacity && this.encourageReuse == encourageReuse
    {
      hide Proper, InUseIds, DisabledIds, Threaded, Viewed;
      var n := Capacity(qubitCapacity);
      this.mayExtendCapacity, this.encourageReuse := mayExtendCapacity, encourageReuse;
      none, allocatedMark, disabledMark, allocatedForBorrowing := n, n + 1, n + 2, n + 3;
      var a := new int[n];
      for i := 0 to n
        invariant forall j :: 0 <= j < i ==> a[j] == j + 1
      {
        a[i] := i + 1;
      }
      qubits := a;
      free, freeTail := 0, n - 1;
      numAllocatedQubits, numDisabledQubits := 0, 0;
      operationStack := [Frame(multiset{}, [])];
      pool := Initial(n);
      new;
      InitialProper(n, Opts());
      AllLinked(qubits[..], Initial(n), Opts(), 0, n - 1, 0);
    }

    // -------------------------------------------------------------- allocation

    /** An array twice as large: the old values re-marked for it, and the new ids linked in order. */
    method RemarkedCopy() returns (a: array<int>)
      requires MarksSet()
      ensures fresh(a) && a.Length == 2 * qubits.Length
      ensures forall j :: 0 <= j < qubits.Length ==> a[j] == Remarked(qubits[j], qubits.Length)
      ensures forall j :: qubits.Length <= j < a.Length ==> a[j] == j + 1
    {
      var n := qubits.Length;
      a := new int[2 * n](i => 0);
      for i := 0 to n
        invariant forall j :: 0 <= j < i ==> a[j] == Remarked(qubits[j], n)
        invariant forall j :: i <= j < n ==> a[j] == 0
      {
        if qubits[i] == none {
          a[i] := n;
        } else if qubits[i] == allocatedMark {
          a[i] := 2 * n + 1;
        } else if qubits[i] == disabledMark {
          a[i] := 2 * n + 2;
        } else if qubits[i] >= allocatedForBorrowing {
          a[i] := qubits[i] - allocatedForBorrowing + (2 * n + 3);
        }
      }
      for i := n to 2 * n
        invariant forall j :: 0 <= j < n ==> a[j] == Remarked(qubits[j], n)
        invariant forall j :: n <= j < i ==> a[j] == j + 1
      {
        a[i] := i + 1;
      }
    }

    /** Doubles the capacity when nothing is free: statuses and loans stay, the new ids are the free list. */
    method ExtendCapacity()
      requires Valid() && free == none
      modifies this
      ensures Valid() && fresh(qubits) && pool == Extended(old(pool)) && pool.free != []
      ensures operationStack == old(operationStack)
    {
      hide Proper, InUseIds, DisabledIds, Extended, Threaded, Viewed, Remarked, Sequential, StatusOf, NoDuplicates,
           Chain;
      ghost var before, p := qubits[..], pool;
      NothingFree(before, p, Opts(), free, freeTail);
      ExtendedCounts(p, Opts());
      var n, oldNone := qubits.Length, none;
      var a := RemarkedCopy();
      RemarkedView(before, a[..], p, Opts());
      none, allocatedMark, disabledMark, allocatedForBorrowing := 2 * n, 2 * n + 1, 2 * n + 2, 2 * n + 3;
      qubits := a;
      if free == oldNone {
        free := n;
        freeTail := 2 * n - 1;
      }
      pool := Extended(pool);
    }

    /** The first free qubit, marked; None when there is none and the capacity is fixed. */
    method AllocateQubit(usedOnlyForBorrowing: bool) returns (r: Option<nat>)
      requires Valid()
      modifies this, qubits
      ensures Valid() && (qubits == old(qubits) || fresh(qubits))
      ensures (r, pool) == QubitPool.Allocate(old(pool), Opts(), if usedOnlyForBorrowing then Lent(0) else Allocated)
      ensures operationStack == AddLocals(old(operationStack), if r.Some? then [r.value] else [])
    {
      hide Proper, InUseIds, DisabledIds, Extended, Take, Threaded, Viewed, AddLocals;
      NothingFree(qubits[..], pool, Opts(), free, freeTail);
      LocalsNone(operationStack);
      if free == none {
        if !mayExtendCapacity {
          return None;
        }
        ExtendCapacity();
      }
      r := TakeFree(usedOnlyForBorrowing);
    }

    /** Takes the head of the free list. */
    method TakeFree(usedOnlyForBorrowing: bool) returns (r: Option<nat>)
      requires Valid() && pool.free != []
      modifies this, qubits
      ensures Valid() && qubits == old(qubits) && HeadInRange(old(pool))
      ensures r == Some(old(pool).free[0])
      ensures pool == Take(old(pool), if usedOnlyForBorrowing then Lent(0) else Allocated)
      ensures operationStack == AddLocals(old(operationStack), [r.value])
    {
      hide Proper, InUseIds, DisabledIds, Take, Threaded, Viewed, AddLocals, NoDuplicates, Sequential, StatusOf;
      ghost var mark := if usedOnlyForBorrowing then Lent(0) else Allocated;
      var temp := free;
      var v := if usedOnlyForBorrowing then allocatedForBorrowing else allocatedMark;
      TakeCounts(pool, Opts(), mark);
      MarkStands(qubits.Length, usedOnlyForBorrowing);
      TakeLinks(qubits[..], pool, Opts(), free, freeTail, v, mark);
      free := qubits[free];
      qubits[temp] := v;
      pool := Take(pool, mark);
      numAllocatedQubits := numAllocatedQubits + 1;
      operationStack := AddLocals(operationStack, [temp]);
      r := Some(temp);
    }

    /** Several qubits at once; a request that cannot be met leaves what was free and what was in use as it was. */
    method AllocateMany(numToAllocate: nat) returns (r: Option<seq<nat>>)
      requires Valid()
      modifies this, qubits
      ensures Valid() && (qubits == old(qubits) || fresh(qubits))
      ensures (r, pool) == QubitPool.AllocateMany(old(pool), Opts(), numToAllocate)
      ensures r.Some? <==> mayExtendCapacity || numToAllocate <= |old(pool).free|
      ensures operationStack == AddLocals(old(operationStack), if r.Some? then r.value else [])
    {
      hide Proper, InUseIds, DisabledIds, Threaded, Viewed, AddLocals, QubitPool.Allocate, ReleaseAll;
      ManyIff(pool, Opts(), numToAllocate);
      var ids: seq<nat> := [];
      LocalsNone(operationStack);
      for i := 0 to numToAllocate
        invariant Valid() && (qubits == old(qubits) || fresh(qubits))
        invariant |ids| == i && (ids, pool) == Grab(old(pool), Opts(), Allocated, i)
        invariant operationStack == AddLocals(old(operationStack), ids)
      {
        ghost var before := pool;
        LocalsNone(operationStack);
        var next := AllocateQubit(false);
        if next.None? {
          AllocateProper(before, Opts(), Allocated);
          GrabStuck(old(pool), Opts(), Allocated, i, numToAllocate);
          RollBack(old(pool), old(operationStack), ids, false, numToAllocate);
          return None;
        }
        LocalsMore(old(operationStack), ids, next.value);
        ids := ids + [next.value];
      }
      r := Some(ids);
    }

    /** Releases what a failed request had taken. */
    method RollBack(ghost p: Pool, ghost stack: seq<Frame>, ids: seq<nat>, usedOnlyForBorrowing: bool, ghost n: nat)
      requires Valid() && Proper(p, Opts())
      requires |ids| < n && (ids, pool) == Grab(p, Opts(), if usedOnlyForBorrowing then Lent(0) else Allocated, n)
      requires stack != [] && operationStack == AddLocals(stack, ids)
      modifies this, qubits
      ensures Valid() && AllBelow(ids, |old(pool).status|) && pool == ReleaseAll(old(pool), Opts(), ids)
      ensures operationStack == stack && qubits == old(qubits)
    {
      hide Proper, InUseIds, DisabledIds, Threaded, Viewed, AddLocals, DropLocal, IsLocal, Grab, ReleaseAll, Release;
      ghost var mark := if usedOnlyForBorrowing then Lent(0) else Allocated;
      RollBackRestores(p, Opts(), mark, n);
      GrabMarked(p, Opts(), mark, n);
      EmptyRelease(pool, Opts());
      assert ids[0..] == ids && ids[..0] == [];
      for k := 0 to |ids|
        invariant Valid() && qubits == old(qubits) && operationStack == AddLocals(stack, ids[k..])
        invariant pool == ReleaseAll(old(pool), Opts(), ids[..k])
      {
        LocalsDropped(stack, ids[k..]);
        ReleaseStep(old(pool), Opts(), ids, k, mark);
        assert ids[k..][1..] == ids[k + 1..];
        ViewedLength(qubits[..], pool.status);
        var r := ReleaseQubit(ids[k], usedOnlyForBorrowing);
      }
      assert ids[..|ids|] == ids && ids[|ids|..] == [];
      LocalsNone(stack);
    }

    /**
     Releases a qubit with the mark given; a disabled one stays disabled, any other mark is refused. A qubit
     that is no local of the running operation is freed all the same, before its missing count is noticed.
     */
    method ReleaseQubit(id: nat, wasUsedOnlyForBorrowing: bool) returns (r: ReleaseResult)
      requires Valid() && id < qubits.Length
      modifies this, qubits
      ensures Valid() && qubits == old(qubits)
      ensures var was := old(pool).status[id];
        var mark := if wasUsedOnlyForBorrowing then Lent(0) else Allocated;
        && r == (if was == Disabled then StaysDisabled
                 else if was != mark then NotAllocated
                 else if IsLocal(old(operationStack), id) then Released else NotLocal)
        && pool == (if was == mark then QubitPool.Release(old(pool), Opts(), id) else old(pool))
        && operationStack == (if r.Released? then DropLocal(old(operationStack), id) else old(operationStack))
    {
      hide Proper, InUseIds, DisabledIds, Threaded, QubitPool.Release, DropLocal, IsLocal;
      if qubits[id] == disabledMark {
        return StaysDisabled;
      }
      if qubits[id] != (if wasUsedOnlyForBorrowing then allocatedForBorrowing else allocatedMark) {
        return NotAllocated;
      }
      LinkFree(id);
      if !IsLocal(operationStack, id) {
        return NotLocal;
      }
      operationStack := DropLocal(operationStack, id);
      r := Released;
    }

    /** Links an id in use into the free list: at the front, or at the back. */
    method LinkFree(id: nat)
      requires Valid() && id < |pool.status| == qubits.Length && InUse(pool.status[id])
      modifies this, qubits
      ensures Valid() && qubits == old(qubits) && operationStack == old(operationStack)
      ensures id < |old(pool).status| && pool == QubitPool.Release(old(pool), Opts(), id)
    {
      hide Proper, InUseIds, DisabledIds, Threaded, Viewed, Chain, QubitPool.Release;
      ghost var p := pool;
      ReleaseProper(p, Opts(), id);
      ReleaseLinks(qubits[..], p, Opts(), free, freeTail, id);
      if encourageReuse {
        qubits[id] := free;
        free := id;
      } else {
        if !mayExtendCapacity {
          if qubits[freeTail] != none {
            free := id;
          } else {
            qubits[freeTail] := id;
          }
        }
        qubits[id] := none;
        freeTail := id;
      }
      pool := QubitPool.Release(p, Opts(), id);
      numAllocatedQubits := numAllocatedQubits - 1;
    }

    /**
     Marks a qubit as disabled; one in use is never issued again. The source does not look at what it
     disables: for any other qubit its counts are wrong after.
     */
    method Disable(id: nat)
      requires Valid() && id < qubits.Length
      modifies this, qubits
      ensures qubits == old(qubits) && operationStack == old(operationStack)
      ensures free == old(free) && freeTail == old(freeTail) && MarksSet()
      ensures qubits[..] == old(qubits[..])[id := old(disabledMark)]
      ensures numDisabledQubits == old(numDisabledQubits) + 1 && numAllocatedQubits == old(numAllocatedQubits) - 1
      ensures Valid() <==> InUse(old(pool).status[id])
      ensures pool == QubitPool.Disable(old(pool), id)
    {
      hide Proper, InUseIds, DisabledIds, Threaded, Viewed;
      ViewedLength(qubits[..], pool.status);
      DisabledMeans(pool, Opts(), id);
      ViewedUpdate(qubits[..], pool.status, id, disabledMark);
      if InUse(pool.status[id]) {
        InUseNotFree(pool, Opts(), id);
        ThreadedUpdate(qubits[..], pool, QubitPool.Disable(pool, id), Opts(), free, freeTail, id, disabledMark);
      }
      qubits[id] := disabledMark;
      pool := QubitPool.Disable(pool, id);
      numDisabledQubits := numDisabledQubits + 1;
      numAllocatedQubits := numAllocatedQubits - 1;
    }

    // -------------------------------------------------------------- borrowing

    method OnOperationStart(arguments: seq<nat>)
      requires Valid()
      modifies this`operationStack
      ensures Valid() && operationStack == old(operationStack) + [Frame(multiset{}, arguments)]
    {
      hide Proper, InUseIds, DisabledIds, Threaded, Viewed;
      operationStack := operationStack + [Frame(multiset{}, arguments)];
    }

    method OnOperationEnd()
      requires Valid() && |operationStack| > 1
      modifies this`operationStack
      ensures Valid() && operationStack == old(operationStack)[..|old(operationStack)| - 1]
    {
      hide Proper, InUseIds, DisabledIds, Threaded, Viewed;
      operationStack := operationStack[..|operationStack| - 1];
    }

    /** The qubits the running operation uses, disabled ones left out. */
    method QubitsInUse() returns (inUse: set<nat>)
      requires Valid()
      ensures inUse == FrameIds(operationStack[|operationStack| - 1], pool.status)
      ensures var f := operationStack[|operationStack| - 1];
        forall q :: q in inUse <==> (q in f.locals || q in f.arguments) && q !in DisabledIds(pool.status)
    {
      hide Proper, InUseIds, Threaded;
      var f := operationStack[|operationStack| - 1];
      inUse := (set q | q in f.locals && !(q < qubits.Length && qubits[q] == disabledMark))
        + (set q | q in f.arguments && !(q < qubits.Length && qubits[q] == disabledMark));
      forall q: nat | q < qubits.Length ensures qubits[q] == disabledMark <==> pool.status[q].Disabled? {
        assert qubits[..][q] == qubits[q];
      }
    }

    /** The first qubit from `minId` on that may be lent; `stack` has the qubits in use, the lowest first. */
    method BorrowFrom(stack: seq<nat>, minId: nat, ghost inUse: set<nat>) returns (r: Option<nat>, rest: seq<nat>)
      requires Valid() && minId <= qubits.Length && StackFrom(stack, inUse, minId) && inUse <= InUseIds(pool.status)
      modifies this`pool, this`operationStack, qubits
      ensures Valid() && |pool.status| == |old(pool).status| == qubits.Length && qubits == old(qubits)
      ensures var c := Candidates(old(pool).status, inUse, minId);
        && (c == [] ==> r.None? && pool == old(pool) && operationStack == old(operationStack))
        && (c != [] ==> r == Some(c[0]) && pool == old(pool).(status := LendAll(old(pool).status, [c[0]])))
        && (c != [] ==> operationStack == AddLocals(old(operationStack), [c[0]]) && StackFrom(rest, inUse, c[0] + 1))
    {
      hide Proper, InUseIds, DisabledIds, Threaded, Viewed, StackFrom, AddLocals, Candidates, LendAll, InUse;
      var curQubit := minId;
      rest := stack;
      ViewedLength(qubits[..], pool.status);
      while curQubit < qubits.Length
        invariant Valid() && pool == old(pool) && operationStack == old(operationStack)
        invariant minId <= curQubit <= qubits.Length == |pool.status|
        invariant StackFrom(rest, inUse, curQubit)
        invariant Candidates(pool.status, inUse, minId) == Candidates(pool.status, inUse, curQubit)
      {
        StatusAt(qubits[..], pool.status, curQubit, inUse);
        StackNext(rest, inUse, curQubit);
        CandidatesAt(pool.status, inUse, curQubit);
        if qubits[curQubit] < allocatedMark || qubits[curQubit] == disabledMark {
          curQubit := curQubit + 1;
          continue;
        }
        if rest != [] && rest[0] == curQubit {
          rest := rest[1..];
          curQubit := curQubit + 1;
          continue;
        }
        LendAt(qubits[..], pool, Opts(), free, freeTail, curQubit);
        if qubits[curQubit] >= allocatedForBorrowing {
          qubits[curQubit] := qubits[curQubit] + 1;
        }
        pool := pool.(status := LendAll(pool.status, [curQubit]));
        operationStack := AddLocals(operationStack, [curQubit]);
        return Some(curQubit), rest;
      }
      CandidatesAt(pool.status, inUse, curQubit);
      r := None;
    }

    /** Borrows qubits outside `inUse`; the branch for a search that finds nothing cannot be reached. */
    method BorrowMany(numToBorrow: nat, inUse: set<nat>) returns (r: Option<seq<nat>>)
      requires Valid() && inUse <= InUseIds(pool.status)
      modifies this, qubits
      ensures Valid() && (qubits == old(qubits) || fresh(qubits))
      ensures (r, pool) == Borrowing.BorrowMany(old(pool), Opts(), inUse, numToBorrow)
      ensures operationStack ==
        AddLocals(old(operationStack), if r.Some? then r.value else LentPart(old(pool), inUse, numToBorrow))
    {
      hide Proper, InUseIds, DisabledIds, Threaded, Viewed, StackFrom, AddLocals, Candidates, LendAll, ReleaseAll,
           QubitPool.Allocate, AfterLoans;
      ghost var p, before, cand := pool, operationStack, Candidates(pool.status, inUse, 0);
      CandidateCount(p.status, inUse);
      LoansAre(p, inUse, numToBorrow);
      AfterLoansKeeps(p, Opts(), inUse, numToBorrow);
      var ids, numBorrowed := BorrowLoans(numToBorrow, inUse);
      ghost var p1, before1 := pool, operationStack;
      assert p1 == AfterLoans(p, inUse, numToBorrow) && ids == LentPart(p, inUse, numToBorrow);
      LocalsNone(operationStack);
      var more: seq<nat> := [];
      for i := 0 to numToBorrow - numBorrowed
        invariant Valid() && (qubits == old(qubits) || fresh(qubits))
        invariant |more| == i && (more, pool) == Grab(p1, Opts(), Lent(0), i)
        invariant operationStack == AddLocals(before1, more)
      {
        ghost var last := pool;
        LocalsNone(operationStack);
        var next := AllocateQubit(true);
        if next.None? {
          AllocateProper(last, Opts(), Lent(0));
          GrabStuck(p1, Opts(), Lent(0), i, numToBorrow - numBorrowed);
          RollBack(p1, before1, more, true, numToBorrow - numBorrowed);
          return None;
        }
        LocalsMore(before1, more, next.value);
        more := more + [next.value];
      }
      LocalsJoin(before, ids, more);
      r := Some(ids + more);
    }

    /** The loans of a batch. */
    method BorrowLoans(numToBorrow: nat, inUse: set<nat>) returns (borrowed: seq<nat>, numBorrowed: nat)
      requires Valid() && inUse <= InUseIds(pool.status)
      modifies this`pool, this`operationStack, qubits
      ensures Valid() && numBorrowed == Borrowable(old(pool), inUse, numToBorrow)
      ensures borrowed == LentPart(old(pool), inUse, numToBorrow)
      ensures pool == old(pool).(status := LendAll(old(pool).status, borrowed))
      ensures operationStack == AddLocals(old(operationStack), borrowed)
    {
      hide Proper, InUseIds, DisabledIds, Threaded, Viewed, StackFrom, AddLocals, Candidates, LendAll;
      ghost var p, before, cand := pool, operationStack, Candidates(pool.status, inUse, 0);
      CandidateCount(p.status, inUse);
      ViewedLength(qubits[..], p.status);
      var stack := SortById(inUse);
      numBorrowed := Min(numAllocatedQubits - |stack|, numToBorrow);
      borrowed := [];
      var lastBorrowedId: int := -1;
      LocalsNone(operationStack);
      NoLoans(p);
      assert cand[0..] == cand && cand[..0] == [];
      for curBorrowed := 0 to numBorrowed
        invariant Valid() && -1 <= lastBorrowedId < qubits.Length == |pool.status| == |p.status|
        invariant borrowed == cand[..curBorrowed] && pool == p.(status := LendAll(p.status, borrowed))
        invariant StackFrom(stack, inUse, lastBorrowedId + 1)
        invariant Candidates(pool.status, inUse, lastBorrowedId + 1) == cand[curBorrowed..]
        invariant operationStack == AddLocals(before, borrowed)
      {
        AfterLend(p, Opts(), inUse, cand, curBorrowed, lastBorrowedId + 1);
        var bq, rest := BorrowFrom(stack, lastBorrowedId + 1, inUse);
        stack := rest;
        if bq.None? {
          assert false;
        } else {
          LocalsMore(before, borrowed, bq.value);
          borrowed := borrowed + [bq.value];
          lastBorrowedId := bq.value;
        }
      }
    }

    /** Borrows qubits the running operation does not use. */
    method Borrow(numToBorrow: nat) returns (r: Option<seq<nat>>)
      requires Valid() && FrameIds(operationStack[|operationStack| - 1], pool.status) <= InUseIds(pool.status)
      modifies this, qubits
      ensures Valid() && (qubits == old(qubits) || fresh(qubits))
      ensures (r, pool, operationStack) == BorrowInFrame(old(pool), Opts(), old(operationStack), numToBorrow)
      ensures r.Some? ==> NotUsedBy(old(operationStack)[|old(operationStack)| - 1], r.value)
    {
      hide Proper, InUseIds, DisabledIds, Threaded, Viewed, FrameIds, LentPart, Borrowing.BorrowMany, AddLocals;
      var inUse := QubitsInUse();
      BorrowsFromOthers(pool, Opts(), operationStack, numToBorrow);
      r := BorrowMany(numToBorrow, inUse);
    }

    /** One qubit the running operation does not use; without one, an ordinary allocation. */
    method BorrowSingle() returns (r: Option<nat>)
      requires Valid() && FrameIds(operationStack[|operationStack| - 1], pool.status) <= InUseIds(pool.status)
      modifies this, qubits
      ensures Valid() && (qubits == old(qubits) || fresh(qubits))
      ensures (r, pool) ==
        BorrowOne(old(pool), Opts(), FrameIds(old(operationStack)[|old(operationStack)| - 1], old(pool).status))
      ensures operationStack ==
        if r.Some? then AddLocals(old(operationStack), [r.value]) else old(operationStack)
      ensures r.Some? ==> NotUsedBy(old(operationStack)[|old(operationStack)| - 1], [r.value])
    {
      hide Proper, InUseIds, DisabledIds, Threaded, Viewed, StackFrom, AddLocals, Candidates, LendAll, FrameIds,
           QubitPool.Allocate;
      var inUse := QubitsInUse();
      var stack := SortById(inUse);
      BorrowsFromOthers(pool, Opts(), operationStack, 1);
      CandidateCount(pool.status, inUse);
      LocalsNone(operationStack);
      if numAllocatedQubits == |stack| {
        r := AllocateQubit(false);
        return;
      }
      var bq, rest := BorrowFrom(stack, 0, inUse);
      if bq.None? {
        assert false;
      } else {
        r := bq;
      }
    }

    /** Gives a borrowed qubit back; the last loan of one that was only lent releases it. */
    method Return(id: nat) returns (r: ReleaseResult)
      requires Valid() && id < qubits.Length
      modifies this, qubits
      ensures Valid() && qubits == old(qubits) && pool == Borrowing.Return(old(pool), Opts(), id)
      ensures r == if IsLocal(old(operationStack), id) then Released else NotLocal
      ensures operationStack == if r.Released? then DropLocal(old(operationStack), id) else old(operationStack)
    {
      hide Proper, InUseIds, DisabledIds, Threaded, Chain, QubitPool.Release, DropLocal, IsLocal;
      if qubits[id] == allocatedForBorrowing {
        r := ReleaseQubit(id, true);
        return;
      }
      if qubits[id] > allocatedForBorrowing {
        ReturnAt(qubits[..], pool, Opts(), free, freeTail, id);
        pool := Borrowing.Return(pool, Opts(), id);
        qubits[id] := qubits[id] - 1;
      }
      if !IsLocal(operationStack, id) {
        return NotLocal;
      }
      operationStack := DropLocal(operationStack, id);
      r := Released;
    }
  }

  /** Disabling keeps the pool proper, and the counts right, exactly for an id in use. */
  lemma DisabledMeans(p: Pool, o: Options, q: nat)
    requires Proper(p, o) && q < |p.status|
    ensures var p2 := QubitPool.Disable(p, q);
      if InUse(p.status[q]) then
        Proper(p2, o) && |InUseIds(p2.status)| == |InUseIds(p.status)| - 1
        && |DisabledIds(p2.status)| == |DisabledIds(p.status)| + 1
      else |InUseIds(p2.status)| == |InUseIds(p.status)|
  {
    if InUse(p.status[q]) {
      DisableProper(p, o, q);
    } else {
      assert InUseIds(QubitPool.Disable(p, q).status) == InUseIds(p.status);
    }
  }

  // ---------------------------------------------------------------- lemmas of the search

  predicate Ascending(r: seq<nat>) { forall i, j :: 0 <= i < j < |r| ==> r[i] < r[j] }

  predicate IsLeast(m: nat, s: set<nat>) { m in s && forall x :: x in s ==> m <= x }

  /** `r` has the ids of `s` without `todo` in ascending order, all below those of `todo`. */
  ghost predicate SortedPart(r: seq<nat>, s: set<nat>, todo: set<nat>) {
    && Ascending(r)
    && (forall q :: q in r <==> q in s && q !in todo)
    && (forall x, y :: x in r && y in todo ==> x < y)
  }

  /** The ids in ascending order. */
  method SortById(s: set<nat>) returns (r: seq<nat>)
    ensures StackFrom(r, s, 0) && |r| == |s|
  {
    hide SortedPart, IsLeast, StackFrom;
    var todo := s;
    r := [];
    SortedNone(s);
    while todo != {}
      invariant todo <= s && |r| + |todo| == |s| && SortedPart(r, s, todo)
      decreases |todo|
    {
      LeastExists(todo);
      var m :| IsLeast(m, todo);
      SortedStep(r, s, todo, m);
      r := r + [m];
      todo := todo - {m};
    }
    SortedAll(r, s);
  }

  lemma SortedNone(s: set<nat>)
    ensures SortedPart([], s, s)
  {
  }

  lemma SortedStep(r: seq<nat>, s: set<nat>, todo: set<nat>, m: nat)
    requires SortedPart(r, s, todo) && IsLeast(m, todo) && todo <= s
    ensures m in todo && SortedPart(r + [m], s, todo - {m})
  {
    var t := r + [m];
    forall i, j | 0 <= i < j < |t| ensures t[i] < t[j] {
      if j == |r| {
        assert r[i] in r;
      }
    }
  }

  lemma SortedAll(r: seq<nat>, s: set<nat>)
    requires SortedPart(r, s, {})
    ensures StackFrom(r, s, 0)
  {
  }

  lemma {:induction false} LeastExists(s: set<nat>)
    requires s != {}
    ensures exists m :: IsLeast(m, s)
  {
    var q :| q in s;
    if s == {q} {
      assert IsLeast(q, s);
    } else {
      LeastExists(s - {q});
      var m :| IsLeast(m, s - {q});
      assert forall x :: x in s ==> x == q || x in s - {q};
      assert IsLeast(if m < q then m else q, s);
    }
  }

  lemma StackNext(stack: seq<nat>, inUse: set<nat>, cur: nat)
    requires StackFrom(stack, inUse, cur)
    ensures cur in inUse <==> stack != [] && stack[0] == cur
    ensures StackFrom(if cur in inUse then stack[1..] else stack, inUse, cur + 1)
  {
    if cur in inUse {
      assert cur in stack && stack[0] in stack;
      assert stack[0] == cur;
      var t := stack[1..];
      assert stack == [cur] + t;
    }
  }

  lemma CandidatesAt(status: seq<Status>, inUse: set<nat>, cur: nat)
    requires cur <= |status|
    ensures Candidates(status, inUse, cur) ==
      if cur == |status| then []
      else if InUse(status[cur]) && cur !in inUse then [cur] + Candidates(status, inUse, cur + 1)
      else Candidates(status, inUse, cur + 1)
  {
  }

  /** What the array says of one id. */
  lemma StatusAt(a: seq<int>, status: seq<Status>, i: nat, inUse: set<nat>)
    requires Viewed(a, status) && i < |a| && inUse <= InUseIds(status)
    ensures i < |status| && (InUse(status[i]) <==> !(a[i] < |a| + 1 || a[i] == |a| + 2))
    ensures i in inUse ==> InUse(status[i])
  {
    if i in inUse {
      assert i in InUseIds(status);
    }
  }

  /** The value one higher, or the same, is one more loan. */
  lemma LendAt(a: seq<int>, p: Pool, o: Options, free: int, freeTail: int, i: nat)
    requires Viewed(a, p.status) && Threaded(a, p, o, free, freeTail) && Proper(p, o) && i < |a| && InUse(p.status[i])
    ensures var p2 := p.(status := LendAll(p.status, [i]));
      var b := if a[i] >= |a| + 3 then a[i := a[i] + 1] else a;
      && Viewed(b, p2.status) && Threaded(b, p2, o, free, freeTail) && Proper(p2, o)
      && InUseIds(p2.status) == InUseIds(p.status) && DisabledIds(p2.status) == DisabledIds(p.status)
  {
    hide Proper, Threaded, InUseIds, DisabledIds;
    LendKeeps(p, o, [i]);
    InUseNotFree(p, o, i);
    var p2 := p.(status := LendAll(p.status, [i]));
    ThreadedUpdate(a, p, p2, o, free, freeTail, i, if a[i] >= |a| + 3 then a[i] + 1 else a[i]);
    assert a[i := a[i]] == a;
  }

  lemma ReturnAt(a: seq<int>, p: Pool, o: Options, free: int, freeTail: int, i: nat)
    requires Viewed(a, p.status) && Threaded(a, p, o, free, freeTail) && Proper(p, o) && i < |a| && a[i] > |a| + 3
    ensures var p2 := Borrowing.Return(p, o, i);
      var b := a[i := a[i] - 1];
      && Viewed(b, p2.status) && Threaded(b, p2, o, free, freeTail) && Proper(p2, o)
      && InUseIds(p2.status) == InUseIds(p.status) && DisabledIds(p2.status) == DisabledIds(p.status)
  {
    hide Proper, Threaded;
    RelentProper(p, o, i);
    InUseNotFree(p, o, i);
    ThreadedUpdate(a, p, Borrowing.Return(p, o, i), o, free, freeTail, i, a[i] - 1);
  }

  lemma NoLoans(p: Pool)
    ensures p.(status := LendAll(p.status, [])) == p
  {
    assert LendAll(p.status, []) == p.status;
  }

  /** The next loan of a batch. */
  lemma AfterLend(p: Pool, o: Options, inUse: set<nat>, cand: seq<nat>, k: nat, lo: nat)
    requires k < |cand| && cand == Candidates(p.status, inUse, 0) && lo <= |p.status|
    requires Candidates(LendAll(p.status, cand[..k]), inUse, lo) == cand[k..]
    ensures var s := LendAll(LendAll(p.status, cand[..k]), [cand[k]]);
      && s == LendAll(p.status, cand[..k + 1])
      && cand[k] < |p.status| && Candidates(s, inUse, cand[k] + 1) == cand[k + 1..]
      && cand[..k + 1] == cand[..k] + [cand[k]] && cand[k..][0] == cand[k]
    ensures InUseIds(LendAll(p.status, cand[..k])) == InUseIds(p.status)
  {
    hide Candidates, InUseIds;
    var s1 := LendAll(p.status, cand[..k]);
    var s := LendAll(s1, [cand[k]]);
    CandidatesNext(s1, inUse, lo);
    assert cand[k..][1..] == cand[k + 1..];
    CandidatesSame(s1, s, inUse, cand[k] + 1);
    assert cand[k] !in cand[..k];
    SameInUse(p.status, s1);
  }

  lemma SameInUse(status: seq<Status>, status2: seq<Status>)
    requires |status| == |status2| && forall i :: 0 <= i < |status| ==> InUse(status[i]) == InUse(status2[i])
    ensures InUseIds(status) == InUseIds(status2)
  {
  }

  lemma LocalsJoin(stack: seq<Frame>, ids: seq<nat>, more: seq<nat>)
    requires stack != []
    ensures AddLocals(AddLocals(stack, ids), more) == AddLocals(stack, ids + more)
  {
    var m := stack[|stack| - 1].locals;
    assert m + multiset(ids) + multiset(more) == m + multiset(ids + more);
  }

  lemma ViewedLength(a: seq<int>, status: seq<Status>)
    requires Viewed(a, status)
    ensures |a| == |status|
  {
  }

  lemma TakeLinks(a: seq<int>, p: Pool, o: Options, free: int, freeTail: int, v: int, mark: Status)
    requires Threaded(a, p, o, free, freeTail) && Viewed(a, p.status) && p.free != [] && HeadInRange(p)
    requires v >= 0 && StatusOf(v, |a|) == mark
    ensures 0 <= free < |a| && free == p.free[0]
    ensures Threaded(a[free := v], Take(p, mark), o, a[free], freeTail) && Viewed(a[free := v], Take(p, mark).status)
  {
    hide Chain, StatusOf;
    TailChain(a, |a|, p.free);
    HeadNotInTail(a, p.free);
    ChainFrame(a, a[free := v], |a|, p.free[1..], [p.free[0]]);
  }

  lemma MarkStands(n: nat, usedOnlyForBorrowing: bool)
    ensures StatusOf(if usedOnlyForBorrowing then n + 3 else n + 1, n)
      == if usedOnlyForBorrowing then Lent(0) else Allocated
  {
  }

  /** Taking the head keeps the pool proper; one more is in use. */
  lemma TakeCounts(p: Pool, o: Options, mark: Status)
    requires Proper(p, o) && p.free != [] && InUse(mark)
    ensures HeadInRange(p) && Proper(Take(p, mark), o)
    ensures |InUseIds(Take(p, mark).status)| == |InUseIds(p.status)| + 1
    ensures |DisabledIds(Take(p, mark).status)| == |DisabledIds(p.status)|
  {
    hide Proper, InUseIds, DisabledIds, Take;
    TakeProper(p, o, mark);
  }

  /** Doubling keeps the pool proper and the counts. */
  lemma ExtendedCounts(p: Pool, o: Options)
    requires Proper(p, o) && p.free == []
    ensures |p.status| > 0 && Proper(Extended(p), o)
    ensures Extended(p).free == Sequential(|p.status|, 2 * |p.status|) && Extended(p).free != []
    ensures |InUseIds(Extended(p).status)| == |InUseIds(p.status)|
    ensures |DisabledIds(Extended(p).status)| == |DisabledIds(p.status)|
  {
    hide Proper, InUseIds, DisabledIds, Extended;
    NotEmpty(p, o);
    ExtendedProper(p, o);
  }

  lemma HeadNotInTail(a: seq<int>, s: seq<nat>)
    requires Chain(a, |a|, s) && s != []
    ensures s[0] !in s[1..]
  {
    RestDistinct(s);
  }

  /** The ways a release threads the list, for a stack, a queue, and when nothing is reused. */
  lemma ReleaseLinks(a: seq<int>, p: Pool, o: Options, free: int, freeTail: int, q: nat)
    requires Threaded(a, p, o, free, freeTail) && Viewed(a, p.status) && Proper(p, o)
    requires q < |a| && InUse(p.status[q])
    ensures free >= 0 && 0 <= freeTail < |a|
    ensures o.encourageReuse ==>
      Threaded(a[q := free], Release(p, o, q), o, q, freeTail) && Viewed(a[q := free], Release(p, o, q).status)
    ensures !o.encourageReuse && (o.mayExtend || a[freeTail] != |a|) ==>
      Threaded(a[q := |a|], Release(p, o, q), o, if o.mayExtend then free else q, q)
      && Viewed(a[q := |a|], Release(p, o, q).status)
    ensures !o.encourageReuse && !o.mayExtend && a[freeTail] == |a| ==>
      Threaded(a[freeTail := q][q := |a|], Release(p, o, q), o, free, q)
      && Viewed(a[freeTail := q][q := |a|], Release(p, o, q).status)
  {
    hide Chain, Proper;
    InUseNotFree(p, o, q);
    FreeHead(a, p);
    if o.encourageReuse {
      PrependChain(a, |a|, p.free, q);
    } else if o.mayExtend {
      ChainFrame(a, a[q := |a|], |a|, p.free, [q]);
    } else {
      TailIsLast(a, p, o, free, freeTail);
      if p.free == [] {
        OneLinked(a, q);
        assert p.free + [q] == [q];
      } else {
        AppendChain(a, |a|, p.free, q);
      }
    }
  }

  lemma FreeHead(a: seq<int>, p: Pool)
    requires Chain(a, |a|, p.free)
    ensures p.free != [] ==> p.free[0] < |a|
  {
  }

  lemma OneLinked(a: seq<int>, q: nat)
    requires q < |a|
    ensures Chain(a[q := |a|], |a|, [q])
  {
  }

  /** In a queue, the tail's link ends the list exactly when something is free. */
  lemma TailIsLast(a: seq<int>, p: Pool, o: Options, free: int, freeTail: int)
    requires Threaded(a, p, o, free, freeTail) && Viewed(a, p.status)
    requires Proper(p, o) && !o.mayExtend && !o.encourageReuse
    ensures a[freeTail] == |a| <==> p.free != []
    ensures p.free != [] ==> p.status[freeTail].Free?
  {
    hide Chain, NoDuplicates;
    if p.free != [] {
      Link(a, |a|, p.free, |p.free| - 1);
      assert p.free[|p.free| - 1] in p.free;
    }
  }

  lemma NothingFree(a: seq<int>, p: Pool, o: Options, free: int, freeTail: int)
    requires Threaded(a, p, o, free, freeTail) && Viewed(a, p.status)
    ensures free == |a| <==> p.free == []
    ensures |a| == |p.status|
  {
  }

  lemma ExtendedView(a: seq<int>, b: seq<int>, p: Pool)
    requires Viewed(a, p.status) && |b| == 2 * |a|
    requires forall j :: 0 <= j < |a| ==> b[j] == Remarked(a[j], |a|)
    requires forall j :: |a| <= j < |b| ==> b[j] == j + 1
    ensures Viewed(b, Extended(p).status)
  {
    hide Remarked;
    forall j | 0 <= j < |a| ensures b[j] >= 0 && StatusOf(b[j], |b|) == p.status[j] {
      SameStatus(a[j], |a|);
    }
  }

  lemma RemarkedView(a: seq<int>, b: seq<int>, p: Pool, o: Options)
    requires Viewed(a, p.status) && |b| == 2 * |a| > 0 && Extended(p).free == Sequential(|a|, 2 * |a|)
    requires forall j :: 0 <= j < |a| ==> b[j] == Remarked(a[j], |a|)
    requires forall j :: |a| <= j < |b| ==> b[j] == j + 1
    ensures Viewed(b, Extended(p).status) && Threaded(b, Extended(p), o, |a|, |b| - 1)
  {
    hide Viewed, Threaded, Remarked, Extended, Sequential;
    ExtendedView(a, b, p);
    AllLinked(b, Extended(p), o, |a|, |b| - 1, |a|);
  }

  /** The ids from `lo` on, linked in order. */
  lemma AllLinked(a: seq<int>, p: Pool, o: Options, free: int, freeTail: int, lo: nat)
    requires lo < |a| && p.free == Sequential(lo, |a|) && free == lo && freeTail == |a| - 1
    requires forall j :: lo <= j < |a| ==> a[j] == j + 1
    ensures Threaded(a, p, o, free, freeTail)
    ensures lo == 0 && p == Initial(|a|) ==> Viewed(a, p.status)
  {
  }
}
