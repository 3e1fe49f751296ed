/**
 Runs of the qubit manager. A program of operations that start and end, allocate, release, borrow and
 return keeps to its scopes when it releases and returns only what the running operation took, passes
 only ids in use as arguments, and leaves nothing behind. Then every operation uses ids in use only,
 which is what the manager's count of ids to lend rests on.
 */
module ManagerRuns {
  import opened Sequences
  import opened QubitPool
  import opened Borrowing
  import opened QubitManagement

  datatype Operation =
    | Allocate
    | Release(q: nat)
    | Borrow(n: nat)
    | Return(q: nat)
    | Start(arguments: seq<nat>)
    | End

  /** The pool, the frames of the running operations, and the outstanding loans. */
  datatype State = State(pool: Pool, frames: seq<Frame>, out: multiset<nat>)

  function Top(s: State): Frame
    requires s.frames != []
  {
    s.frames[|s.frames| - 1]
  }

  /** What the operation is to the ledger of loans. */
  function EventOf(s: State, op: Operation): LoanEvent
    requires s.frames != [] && !op.Start? && !op.End?
  {
    match op
    case Allocate => LoanEvent.Allocating
    case Release(q) => LoanEvent.Releasing(q)
    case Borrow(n) => LoanEvent.Borrowing(FrameIds(Top(s), s.pool.status), n)
    case Return(q) => LoanEvent.Returning(q)
  }

  ghost predicate InScope(s: State, o: Options, op: Operation)
    requires Proper(s.pool, o) && s.frames != []
  {
    match op
    case Start(arguments) => forall q :: q in arguments ==> q < |s.pool.status| && InUse(s.pool.status[q])
    case End => |s.frames| > 1 && Top(s).locals == multiset{}
    case _ =>
      && Borrowing.InScope(s.pool, o, s.out, EventOf(s, op))
      && (op.Release? || op.Return? ==> IsLocal(s.frames, op.q))
  }

  function Step(s: State, o: Options, op: Operation): (r: State)
    requires Proper(s.pool, o) && s.frames != [] && InScope(s, o, op)
    ensures r.frames != []
  {
    match op
    case Start(arguments) => s.(frames := s.frames + [Frame(multiset{}, arguments)])
    case End => s.(frames := s.frames[..|s.frames| - 1])
    case _ =>
      var (p, out) := LoanStep(s.pool, o, s.out, EventOf(s, op));
      State(p, FramesAfter(s, o, op), out)
  }

  /** The frames after an allocation, a release, a batch or a return. */
  function FramesAfter(s: State, o: Options, op: Operation): (r: seq<Frame>)
    requires Proper(s.pool, o) && s.frames != [] && !op.Start? && !op.End? && InScope(s, o, op)
    ensures r != []
  {
    match op
    case Allocate =>
      var q := QubitPool.Allocate(s.pool, o, Allocated).0;
      AddLocals(s.frames, if q.Some? then [q.value] else [])
    case Release(q) => DropLocal(s.frames, q)
    case Borrow(n) => AddLocals(s.frames, BorrowMany(s.pool, o, FrameIds(Top(s), s.pool.status), n).0.value)
    case Return(q) => DropLocal(s.frames, q)
  }

  // ---------------------------------------------------------------- who took an id

  /** In how many operations behind the one of depth `home` the id is a local. */
  function Loans(frames: seq<Frame>, home: nat, q: nat): nat {
    if frames == [] then 0
    else
      var t := |frames| - 1;
      Loans(frames[..t], home, q) + if home < t && q in frames[t].locals then 1 else 0
  }

  ghost predicate HomeOf(s: State, home: map<nat, nat>, q: nat)
    requires q < |s.pool.status|
  {
    && q in home && home[q] < |s.frames| && q in s.frames[home[q]].locals
    && s.out[q] == Loans(s.frames, home[q], q) + if s.pool.status[q].Lent? then 1 else 0
  }

  ghost predicate LocalOf(s: State, home: map<nat, nat>, j: nat, q: nat)
    requires j < |s.frames|
  {
    && q < |s.pool.status| && InUse(s.pool.status[q]) && q in home && home[q] <= j && s.frames[j].locals[q] == 1
  }

  ghost predicate ArgumentOf(s: State, home: map<nat, nat>, j: nat, q: nat)
    requires j < |s.frames|
  {
    q < |s.pool.status| && InUse(s.pool.status[q]) && q in home && home[q] < j
  }

  /**
   Every id in use is a local of the operation that took it from the free ids, its home. Other operations
   have it as a local only by borrowing it, and it has as many loans as that; no operation below its home
   knows it.
   */
  ghost predicate Homed(s: State, o: Options, home: map<nat, nat>) {
    && s.frames != [] && Proper(s.pool, o) && Balanced(s.pool, s.out)
    && (forall q: nat :: q < |s.pool.status| && InUse(s.pool.status[q]) ==> HomeOf(s, home, q))
    && (forall j: nat, q :: j < |s.frames| && q in s.frames[j].locals ==> LocalOf(s, home, j, q))
    && (forall j: nat, q :: j < |s.frames| && q in s.frames[j].arguments ==> ArgumentOf(s, home, j, q))
  }

  ghost predicate Scoped(s: State, o: Options) { exists home :: Homed(s, o, home) }

  lemma {:induction false} LoansNone(frames: seq<Frame>, home: nat, q: nat)
    requires home + 1 >= |frames|
    ensures Loans(frames, home, q) == 0
  {
    if frames != [] {
      LoansNone(frames[..|frames| - 1], home, q);
    }
  }

  /** A change of the running operation's locals from `before` to `after`, for one id. */
  lemma LoansOfTop(frames: seq<Frame>, frames2: seq<Frame>, home: nat, q: nat)
    requires frames != [] && |frames2| == |frames| && frames2[..|frames| - 1] == frames[..|frames| - 1]
    ensures var t := |frames| - 1;
      Loans(frames2, home, q) == Loans(frames, home, q)
        + (if home < t && q in frames2[t].locals then 1 else 0) - (if home < t && q in frames[t].locals then 1 else 0)
  {
  }

  lemma Framed(s: State, o: Options, home: map<nat, nat>)
    requires Homed(s, o, home)
    ensures s.frames != []
  {
  }

  lemma InUseIs(s: State, o: Options, home: map<nat, nat>, q: nat)
    requires Homed(s, o, home) && q < |s.pool.status| && InUse(s.pool.status[q])
    ensures HomeOf(s, home, q)
  {
  }

  lemma LocalIs(s: State, o: Options, home: map<nat, nat>, j: nat, q: nat)
    requires Homed(s, o, home) && j < |s.frames| && q in s.frames[j].locals
    ensures LocalOf(s, home, j, q)
  {
  }

  lemma ArgumentIs(s: State, o: Options, home: map<nat, nat>, j: nat, q: nat)
    requires Homed(s, o, home) && j < |s.frames| && q in s.frames[j].arguments
    ensures ArgumentOf(s, home, j, q)
  {
  }

  /** A qubit not in use is named by no operation. */
  lemma FreeUnnamed(s: State, o: Options, home: map<nat, nat>, j: nat, q: nat)
    requires Homed(s, o, home) && j < |s.frames| && !(q < |s.pool.status| && InUse(s.pool.status[q]))
    ensures q !in s.frames[j].locals && q !in s.frames[j].arguments && q !in s.out
  {
  }

  // ---------------------------------------------------------------- starting and ending

  lemma StartHomed(s: State, o: Options, home: map<nat, nat>, arguments: seq<nat>)
    requires Homed(s, o, home) && InScope(s, o, Start(arguments))
    ensures Homed(Step(s, o, Start(arguments)), o, home)
  {
    hide Proper, Balanced, Loans, HomeOf;
    var s2 := Step(s, o, Start(arguments));
    forall q: nat | q < |s.pool.status| && InUse(s.pool.status[q]) ensures HomeOf(s2, home, q) {
      InUseIs(s, o, home, q);
      Pushed(s, s2, home, q, Frame(multiset{}, arguments));
    }
    forall q: nat | q in arguments ensures q in home && home[q] < |s.frames| {
      InUseIs(s, o, home, q);
      HomeBelow(s, home, q);
    }
  }

  lemma HomeBelow(s: State, home: map<nat, nat>, q: nat)
    requires q < |s.pool.status| && HomeOf(s, home, q)
    ensures q in home && home[q] < |s.frames| && q in s.frames[home[q]].locals
  {
  }

  lemma Pushed(s: State, s2: State, home: map<nat, nat>, q: nat, f: Frame)
    requires q < |s.pool.status| && HomeOf(s, home, q)
    requires s2 == s.(frames := s.frames + [f]) && f.locals == multiset{}
    ensures HomeOf(s2, home, q)
  {
    assert s2.frames[..|s.frames|] == s.frames;
  }

  lemma EndHomed(s: State, o: Options, home: map<nat, nat>)
    requires Homed(s, o, home) && InScope(s, o, End)
    ensures Homed(Step(s, o, End), o, home)
  {
    hide Proper, Balanced, Loans, HomeOf;
    var s2 := Step(s, o, End);
    forall q: nat | q < |s.pool.status| && InUse(s.pool.status[q]) ensures HomeOf(s2, home, q) {
      InUseIs(s, o, home, q);
      Popped(s, s2, home, q);
    }
    forall j: nat, q | j < |s2.frames| && q in s2.frames[j].locals ensures LocalOf(s2, home, j, q) {
      LocalIs(s, o, home, j, q);
    }
    forall j: nat, q | j < |s2.frames| && q in s2.frames[j].arguments ensures ArgumentOf(s2, home, j, q) {
      ArgumentIs(s, o, home, j, q);
    }
  }

  lemma Popped(s: State, s2: State, home: map<nat, nat>, q: nat)
    requires q < |s.pool.status| && HomeOf(s, home, q)
    requires |s.frames| > 1 && s2 == s.(frames := s.frames[..|s.frames| - 1]) && Top(s).locals == multiset{}
    ensures HomeOf(s2, home, q)
  {
  }

  // ---------------------------------------------------------------- taking ids

  ghost predicate KeepsInUse(status: seq<Status>, status2: seq<Status>, taken: seq<nat>) {
    && |status| <= |status2|
    && (forall q :: 0 <= q < |status| && InUse(status[q]) ==> InUse(status2[q]) && status2[q].Lent? == status[q].Lent?)
    && (forall q :: 0 <= q < |status2| && InUse(status2[q]) ==> q in taken || (q < |status| && InUse(status[q])))
  }

  ghost predicate Takes(s: State, s2: State, lent: seq<nat>, taken: seq<nat>)
    requires s.frames != []
  {
    && s2.frames == AddLocals(s.frames, lent + taken) && NoDuplicates(lent + taken)
    && KeepsInUse(s.pool.status, s2.pool.status, taken)
    && (forall q :: q in lent ==> q < |s.pool.status| && InUse(s.pool.status[q]) && q !in Top(s).locals)
    && (forall q :: q in taken ==> q < |s2.pool.status| && InUse(s2.pool.status[q]))
    && (forall q :: q in taken ==> !(q < |s.pool.status| && InUse(s.pool.status[q])))
    && (forall q: nat :: s2.out[q] ==
          s.out[q] + if q in lent || (q in taken && q < |s2.pool.status| && s2.pool.status[q].Lent?) then 1 else 0)
  }

  /** What taking ids means for one id. */
  lemma TakesAt(s: State, s2: State, lent: seq<nat>, taken: seq<nat>, q: nat)
    requires s.frames != [] && Takes(s, s2, lent, taken)
    ensures var (a, b) := (s.pool.status, s2.pool.status);
      && (q < |b| && InUse(b[q]) ==> q in taken || (q < |a| && InUse(a[q]) && b[q].Lent? == a[q].Lent?))
      && (q < |a| && InUse(a[q]) ==> q < |b| && InUse(b[q]))
      && (q in taken ==> q < |b| && InUse(b[q]) && !(q < |a| && InUse(a[q])))
      && (q in lent ==> q < |a| && InUse(a[q]) && q !in Top(s).locals)
      && s2.out[q] == s.out[q] + if q in lent || (q in taken && q < |b| && b[q].Lent?) then 1 else 0
    ensures s2.frames == AddLocals(s.frames, lent + taken) && NoDuplicates(lent + taken)
    ensures q in lent + taken <==> q in lent || q in taken
  {
    hide AddLocals, NoDuplicates, InUse;
  }

  function NewHomes(home: map<nat, nat>, taken: seq<nat>, t: nat): map<nat, nat> { home + map q | q in taken :: t }

  lemma AddedLocals(frames: seq<Frame>, ids: seq<nat>, q: nat)
    requires frames != [] && NoDuplicates(ids)
    ensures var (t, f2) := (|frames| - 1, AddLocals(frames, ids));
      && f2[..t] == frames[..t] && f2[t].arguments == frames[t].arguments
      && f2[t].locals[q] == frames[t].locals[q] + if q in ids then 1 else 0
  {
    Once(ids, q);
  }

  lemma TakesOne(s: State, s2: State, o: Options, home: map<nat, nat>, lent: seq<nat>, taken: seq<nat>, q: nat)
    requires Homed(s, o, home) && Takes(s, s2, lent, taken) && q < |s2.pool.status| && InUse(s2.pool.status[q])
    ensures HomeOf(s2, NewHomes(home, taken, |s.frames| - 1), q)
  {
    hide Takes, Homed, Loans, AddLocals, NoDuplicates, InUse;
    var t := |s.frames| - 1;
    Framed(s, o, home);
    TakesAt(s, s2, lent, taken, q);
    AddedLocals(s.frames, lent + taken, q);
    if q in taken {
      FreeUnnamed(s, o, home, t, q);
      LoansNone(s2.frames, t, q);
    } else {
      InUseIs(s, o, home, q);
      LoansOfTop(s.frames, s2.frames, home[q], q);
      SameBelow(s.frames, s2.frames, home[q]);
    }
  }

  lemma SameBelow(frames: seq<Frame>, frames2: seq<Frame>, j: nat)
    requires frames != [] && |frames2| == |frames| && frames2[..|frames| - 1] == frames[..|frames| - 1]
    ensures j < |frames| - 1 ==> frames2[j] == frames[j]
  {
    if j < |frames| - 1 {
      assert frames2[..|frames| - 1][j] == frames[..|frames| - 1][j];
    }
  }

  lemma TakesLocal(s: State, s2: State, o: Options, home: map<nat, nat>, lent: seq<nat>, taken: seq<nat>, j: nat,
                   q: nat)
    requires Homed(s, o, home) && Takes(s, s2, lent, taken) && j < |s2.frames| && q in s2.frames[j].locals
    ensures LocalOf(s2, NewHomes(home, taken, |s.frames| - 1), j, q)
  {
    hide Takes, Homed, Loans, AddLocals, NoDuplicates, InUse;
    var t := |s.frames| - 1;
    Framed(s, o, home);
    TakesAt(s, s2, lent, taken, q);
    AddedLocals(s.frames, lent + taken, q);
    SameBelow(s.frames, s2.frames, j);
    if q in taken {
      FreeUnnamed(s, o, home, j, q);
    } else if q in s.frames[j].locals {
      LocalIs(s, o, home, j, q);
    } else {
      InUseIs(s, o, home, q);
    }
  }

  lemma TakesArgument(s: State, s2: State, o: Options, home: map<nat, nat>, lent: seq<nat>, taken: seq<nat>, j: nat,
                      q: nat)
    requires Homed(s, o, home) && Takes(s, s2, lent, taken) && j < |s2.frames| && q in s2.frames[j].arguments
    ensures ArgumentOf(s2, NewHomes(home, taken, |s.frames| - 1), j, q)
  {
    hide Takes, Homed, Loans, AddLocals, NoDuplicates, InUse;
    Framed(s, o, home);
    TakesAt(s, s2, lent, taken, q);
    AddedLocals(s.frames, lent + taken, q);
    SameBelow(s.frames, s2.frames, j);
    ArgumentIs(s, o, home, j, q);
  }

  lemma TakesHomed(s: State, s2: State, o: Options, home: map<nat, nat>, lent: seq<nat>, taken: seq<nat>)
    requires Homed(s, o, home) && Takes(s, s2, lent, taken) && Proper(s2.pool, o) && Balanced(s2.pool, s2.out)
    ensures Homed(s2, o, NewHomes(home, taken, |s.frames| - 1))
  {
    hide Proper, Balanced, NewHomes, HomeOf, LocalOf, ArgumentOf, AddLocals, KeepsInUse;
    var home2 := NewHomes(home, taken, |s.frames| - 1);
    forall q: nat | q < |s2.pool.status| && InUse(s2.pool.status[q]) ensures HomeOf(s2, home2, q) {
      TakesOne(s, s2, o, home, lent, taken, q);
    }
    forall j: nat, q | j < |s2.frames| && q in s2.frames[j].locals ensures LocalOf(s2, home2, j, q) {
      TakesLocal(s, s2, o, home, lent, taken, j, q);
    }
    forall j: nat, q | j < |s2.frames| && q in s2.frames[j].arguments ensures ArgumentOf(s2, home2, j, q) {
      TakesArgument(s, s2, o, home, lent, taken, j, q);
    }
  }

  // ---------------------------------------------------------------- giving ids back

  /** The running operation drops a local: one that is free after, or one that stays with its home. */
  ghost predicate Drops(s: State, s2: State, home: map<nat, nat>, q: nat)
    requires s.frames != []
  {
    && IsLocal(s.frames, q) && s2.frames == DropLocal(s.frames, q) && q in home
    && |s.pool.status| == |s2.pool.status| && q < |s.pool.status|
    && (forall x :: 0 <= x < |s.pool.status| && x != q ==>
         s2.pool.status[x] == s.pool.status[x] && s2.out[x] == s.out[x])
    && (if home[q] == |s.frames| - 1 then !InUse(s2.pool.status[q])
        else InUse(s2.pool.status[q]) && s2.pool.status[q].Lent? == s.pool.status[q].Lent? && s2.out[q] + 1 == s.out[q])
  }

  lemma DroppedLocal(frames: seq<Frame>, q: nat, x: nat)
    requires IsLocal(frames, q)
    ensures var (t, f2) := (|frames| - 1, DropLocal(frames, q));
      && f2[..t] == frames[..t] && f2[t].arguments == frames[t].arguments
      && f2[t].locals[x] == frames[t].locals[x] - if x == q then 1 else 0
  {
  }

  lemma DropsOne(s: State, s2: State, o: Options, home: map<nat, nat>, q: nat, x: nat)
    requires Homed(s, o, home) && Drops(s, s2, home, q) && x < |s2.pool.status| && InUse(s2.pool.status[x])
    ensures HomeOf(s2, home, x)
  {
    hide Homed, Loans, DropLocal, InUse;
    var t := |s.frames| - 1;
    Framed(s, o, home);
    DroppedLocal(s.frames, q, x);
    LocalIs(s, o, home, t, q);
    InUseIs(s, o, home, x);
    LoansOfTop(s.frames, s2.frames, home[x], x);
    SameBelow(s.frames, s2.frames, home[x]);
  }

  lemma DropsNamed(s: State, s2: State, o: Options, home: map<nat, nat>, q: nat, j: nat, x: nat)
    requires Homed(s, o, home) && Drops(s, s2, home, q) && j < |s2.frames|
    ensures x in s2.frames[j].locals ==> LocalOf(s2, home, j, x)
    ensures x in s2.frames[j].arguments ==> ArgumentOf(s2, home, j, x)
  {
    hide Homed, Loans, DropLocal, InUse;
    Framed(s, o, home);
    DroppedLocal(s.frames, q, x);
    SameBelow(s.frames, s2.frames, j);
    LocalIs(s, o, home, |s.frames| - 1, q);
    if x in s2.frames[j].locals {
      LocalIs(s, o, home, j, x);
    }
    if x in s2.frames[j].arguments {
      ArgumentIs(s, o, home, j, x);
    }
  }

  lemma DropsHomed(s: State, s2: State, o: Options, home: map<nat, nat>, q: nat)
    requires Homed(s, o, home) && Drops(s, s2, home, q) && Proper(s2.pool, o) && Balanced(s2.pool, s2.out)
    ensures Homed(s2, o, home)
  {
    hide Proper, Balanced, HomeOf, LocalOf, ArgumentOf, DropLocal;
    forall x: nat | x < |s2.pool.status| && InUse(s2.pool.status[x]) ensures HomeOf(s2, home, x) {
      DropsOne(s, s2, o, home, q, x);
    }
    forall j: nat, x | j < |s2.frames| && x in s2.frames[j].locals ensures LocalOf(s2, home, j, x) {
      DropsNamed(s, s2, o, home, q, j, x);
    }
    forall j: nat, x | j < |s2.frames| && x in s2.frames[j].arguments ensures ArgumentOf(s2, home, j, x) {
      DropsNamed(s, s2, o, home, q, j, x);
    }
  }

  // ---------------------------------------------------------------- each operation

  /** What an allocation does to each status. */
  lemma AllocateStatus(p: Pool, o: Options, mark: Status)
    requires Proper(p, o) && InUse(mark)
    ensures var (q, p2) := QubitPool.Allocate(p, o, mark);
      && |p.status| <= |p2.status|
      && (q.Some? ==>
            q.value < |p2.status| && p2.status[q.value] == mark && !(q.value < |p.status| && InUse(p.status[q.value])))
      && (forall x :: 0 <= x < |p2.status| && q != Some(x) ==>
           p2.status[x] == if x < |p.status| then p.status[x] else Free)
  {
    hide Proper, NoDuplicates, InUseIds, DisabledIds;
    HasHead(p, o);
    if p.free != [] {
      FreeInRange(p, o, 0);
    }
  }

  lemma AllocateTakes(s: State, o: Options)
    requires Proper(s.pool, o) && s.frames != []
    ensures var q := QubitPool.Allocate(s.pool, o, Allocated).0;
      Takes(s, Step(s, o, Allocate), [], if q.Some? then [q.value] else [])
  {
    hide Proper, QubitPool.Allocate, AddLocals;
    AllocateStatus(s.pool, o, Allocated);
    var q := QubitPool.Allocate(s.pool, o, Allocated).0;
    var taken := if q.Some? then [q.value] else [];
    assert [] + taken == taken;
  }

  lemma AllocateHomed(s: State, o: Options, home: map<nat, nat>)
    requires Homed(s, o, home)
    ensures Scoped(Step(s, o, Allocate), o)
  {
    hide Homed, Proper, Balanced, QubitPool.Allocate, AddLocals, Takes;
    Framed(s, o, home);
    HomedPool(s, o, home);
    LoanStepBalanced(s.pool, o, s.out, LoanEvent.Allocating);
    AllocateTakes(s, o);
    var q := QubitPool.Allocate(s.pool, o, Allocated).0;
    TakesHomed(s, Step(s, o, Allocate), o, home, [], if q.Some? then [q.value] else []);
  }

  lemma HomedPool(s: State, o: Options, home: map<nat, nat>)
    requires Homed(s, o, home)
    ensures Proper(s.pool, o) && Balanced(s.pool, s.out)
  {
  }

  lemma ReleaseHomed(s: State, o: Options, home: map<nat, nat>, q: nat)
    requires Homed(s, o, home) && InScope(s, o, Release(q))
    ensures Homed(Step(s, o, Release(q)), o, home)
  {
    hide Homed, Proper, Balanced, Loans;
    Framed(s, o, home);
    HomedPool(s, o, home);
    LoanStepBalanced(s.pool, o, s.out, LoanEvent.Releasing(q));
    InUseIs(s, o, home, q);
    LoanOfTop(s.frames, home[q], q);
    DropsHomed(s, Step(s, o, Release(q)), o, home, q);
  }

  /** A local of the running operation taken by another one is a loan. */
  lemma LoanOfTop(frames: seq<Frame>, home: nat, q: nat)
    requires IsLocal(frames, q) && home < |frames|
    ensures home < |frames| - 1 ==> Loans(frames, home, q) > 0
    ensures home == |frames| - 1 ==> Loans(frames, home, q) == 0
  {
    if home == |frames| - 1 {
      LoansNone(frames, home, q);
    }
  }

  lemma ReturnHomed(s: State, o: Options, home: map<nat, nat>, q: nat)
    requires Homed(s, o, home) && InScope(s, o, Return(q))
    ensures Homed(Step(s, o, Return(q)), o, home)
  {
    hide Homed, Proper, Loans;
    Framed(s, o, home);
    HomedPool(s, o, home);
    LoanStepBalanced(s.pool, o, s.out, LoanEvent.Returning(q));
    InUseIs(s, o, home, q);
    LoanOfTop(s.frames, home[q], q);
    DropsHomed(s, Step(s, o, Return(q)), o, home, q);
  }

  /** What is grabbed changes no status but its own. */
  lemma {:induction false} GrabStatus(p: Pool, o: Options, mark: Status, n: nat)
    requires Proper(p, o) && InUse(mark)
    ensures var (ids, p2) := Grab(p, o, mark, n);
      && |p.status| <= |p2.status|
      && (forall x :: x in ids ==> x < |p2.status| && p2.status[x] == mark)
      && (forall x :: 0 <= x < |p2.status| && x !in ids ==>
           p2.status[x] == if x < |p.status| then p.status[x] else Free)
  {
    hide Proper, QubitPool.Allocate;
    if n > 0 {
      GrabStatus(p, o, mark, n - 1);
      AllocateStatus(Grab(p, o, mark, n - 1).1, o, mark);
    }
  }

  /** The ids a batch lends were in use, and those it allocates were not. */
  lemma BorrowStatus(p: Pool, o: Options, inUse: set<nat>, n: nat) returns (ids: seq<nat>)
    requires Proper(p, o) && BorrowMany(p, o, inUse, n).0.Some?
    ensures var ((r, p2), lent) := (BorrowMany(p, o, inUse, n), LentPart(p, inUse, n));
      && r.value == lent + ids && NoDuplicates(lent + ids)
      && (forall q :: q in lent ==> q < |p.status| && InUse(p.status[q]) && q !in inUse)
      && (forall q :: q in ids ==>
           !(q < |p.status| && InUse(p.status[q])) && q < |p2.status| && p2.status[q] == Lent(0))
      && |p.status| <= |p2.status|
      && (forall q :: 0 <= q < |p2.status| && q !in ids ==>
            p2.status[q] == if q >= |p.status| then Free else if q in lent then Lend(p.status[q]) else p.status[q])
  {
    hide Proper, Grab, Candidates, LentPart, InUseIds, DisabledIds, NoDuplicates, LendAll;
    var lent, m := LentPart(p, inUse, n), n - Borrowable(p, inUse, n);
    var p1 := AfterLoans(p, inUse, n);
    AfterLoansKeeps(p, o, inUse, n);
    LentInUse(p, inUse, n);
    forall q | q in lent ensures q < |p.status| && InUse(p.status[q]) {
      Borrowing.InUseIs(p.status, q);
    }
    GrabStatus(p1, o, Lent(0), m);
    ids := BatchParts(p, o, inUse, n);
    assert lent + ids == lent + Grab(p1, o, Lent(0), m).0;
    assert ids == (lent + ids)[|lent|..] == Grab(p1, o, Lent(0), m).0;
    NewNotInUse(p.status, ids);
    JoinDistinct(lent, ids);
  }

  lemma NewNotInUse(status: seq<Status>, ids: seq<nat>)
    requires forall q :: q in ids ==> q !in InUseIds(status)
    ensures forall q :: q in ids ==> !(q < |status| && InUse(status[q]))
  {
    forall q | q in ids ensures !(q < |status| && InUse(status[q])) {
      assert q !in InUseIds(status);
    }
  }

  lemma BorrowTakes(s: State, o: Options, n: nat) returns (lent: seq<nat>, taken: seq<nat>)
    requires Proper(s.pool, o) && s.frames != [] && Balanced(s.pool, s.out) && InScope(s, o, Borrow(n))
    ensures Takes(s, Step(s, o, Borrow(n)), lent, taken)
  {
    hide Proper, BorrowMany, NoDuplicates, AddLocals, LentPart;
    var inUse := FrameIds(Top(s), s.pool.status);
    lent := LentPart(s.pool, inUse, n);
    taken := BorrowStatus(s.pool, o, inUse, n);
    var s2 := Step(s, o, Borrow(n));
    forall q: nat ensures multiset(lent + taken)[q] == if q in lent || q in taken then 1 else 0 {
      Once(lent + taken, q);
    }
    assert KeepsInUse(s.pool.status, s2.pool.status, taken);
  }

  lemma BorrowHomed(s: State, o: Options, home: map<nat, nat>, n: nat)
    requires Homed(s, o, home) && InScope(s, o, Borrow(n))
    ensures Scoped(Step(s, o, Borrow(n)), o)
  {
    hide Homed, Proper, Balanced, BorrowMany, AddLocals, Takes;
    Framed(s, o, home);
    HomedPool(s, o, home);
    LoanStepBalanced(s.pool, o, s.out, EventOf(s, Borrow(n)));
    var lent, taken := BorrowTakes(s, o, n);
    TakesHomed(s, Step(s, o, Borrow(n)), o, home, lent, taken);
  }

  lemma StepScoped(s: State, o: Options, op: Operation)
    requires Scoped(s, o) && Proper(s.pool, o) && s.frames != [] && InScope(s, o, op)
    ensures Scoped(Step(s, o, op), o)
  {
    hide Homed, Step, InScope, Proper;
    var home :| Homed(s, o, home);
    match op
    case Allocate => AllocateHomed(s, o, home);
    case Release(q) => ReleaseHomed(s, o, home, q);
    case Borrow(n) => BorrowHomed(s, o, home, n);
    case Return(q) => ReturnHomed(s, o, home, q);
    case Start(arguments) => StartHomed(s, o, home, arguments);
    case End => EndHomed(s, o, home);
  }

  // ---------------------------------------------------------------- runs

  function Begin(n: nat): State { State(Initial(n), [Frame(multiset{}, [])], multiset{}) }

  lemma BeginHomed(n: nat, o: Options)
    requires n > 0
    ensures Homed(Begin(n), o, map[])
  {
    InitialProper(n, o);
    InitialBalanced(n);
  }

  /** The state after a program, started with `n` free ids; an operation out of scope is passed over. */
  ghost function Run(n: nat, o: Options, ops: seq<Operation>): (s: State)
    requires n > 0
    ensures Scoped(s, o) && Proper(s.pool, o) && Balanced(s.pool, s.out) && s.frames != []
  {
    if ops == [] then
      BeginHomed(n, o);
      Begin(n)
    else
      var s := Run(n, o, ops[..|ops| - 1]);
      var op := ops[|ops| - 1];
      if !InScope(s, o, op) then s
      else
        StepScoped(s, o, op);
        ScopedPool(Step(s, o, op), o);
        Step(s, o, op)
  }

  lemma ScopedPool(s: State, o: Options)
    requires Scoped(s, o)
    ensures Proper(s.pool, o) && Balanced(s.pool, s.out) && s.frames != []
  {
  }

  ghost predicate WellScoped(n: nat, o: Options, ops: seq<Operation>)
    requires n > 0
  {
    forall i :: 0 <= i < |ops| ==> InScope(Run(n, o, ops[..i]), o, ops[i])
  }

  predicate LocalAt(s: State, j: nat, q: nat) { j < |s.frames| && q in s.frames[j].locals }

  /**
   In every run, whatever some operation uses is in use, so the count of ids to lend is right, and every id
   in use is a local of some operation: nothing is used that is free, and nothing is lost.
   */
  lemma UsedIffInUse(n: nat, o: Options, ops: seq<Operation>)
    requires n > 0
    ensures var s := Run(n, o, ops);
      && (forall f :: f in s.frames ==> FrameIds(f, s.pool.status) <= InUseIds(s.pool.status))
      && (forall q :: q in InUseIds(s.pool.status) ==> exists j :: LocalAt(s, j, q))
  {
    hide Run, Proper, Homed, InUseIds, FrameIds;
    var s := Run(n, o, ops);
    var home :| Homed(s, o, home);
    forall f | f in s.frames ensures FrameIds(f, s.pool.status) <= InUseIds(s.pool.status) {
      var j :| 0 <= j < |s.frames| && s.frames[j] == f;
      FrameInUse(s, o, home, j);
    }
    forall q | q in InUseIds(s.pool.status) ensures exists j :: LocalAt(s, j, q) {
      Borrowing.InUseIs(s.pool.status, q);
      InUseIs(s, o, home, q);
      assert LocalAt(s, home[q], q);
    }
  }

  lemma FrameInUse(s: State, o: Options, home: map<nat, nat>, j: nat)
    requires Homed(s, o, home) && j < |s.frames|
    ensures FrameIds(s.frames[j], s.pool.status) <= InUseIds(s.pool.status)
  {
    hide Homed;
    forall q | q in FrameIds(s.frames[j], s.pool.status) ensures q in InUseIds(s.pool.status) {
      if q in s.frames[j].locals {
        LocalIs(s, o, home, j, q);
      } else {
        ArgumentIs(s, o, home, j, q);
      }
    }
  }

  // ---------------------------------------------------------------- runs of the class

  lemma AsLong(m: QubitManager, s: State)
    requires m.Valid() && m.pool == s.pool && Scoped(s, m.Opts())
    ensures m.qubits.Length == |s.pool.status| && forall q :: q in s.out ==> q < |s.pool.status|
  {
    hide Proper, Threaded;
    var home :| Homed(s, m.Opts(), home);
    HomedPool(s, m.Opts(), home);
  }

  method Perform(m: QubitManager, ghost s: State, op: Operation)
    requires m.Valid() && m.pool == s.pool && m.operationStack == s.frames
    requires Scoped(s, m.Opts()) && InScope(s, m.Opts(), op)
    requires FrameIds(Top(s), s.pool.status) <= InUseIds(s.pool.status)
    modifies m, m.qubits
    ensures m.Valid() && (m.qubits == old(m.qubits) || fresh(m.qubits))
    ensures m.pool == Step(s, m.Opts(), op).pool && m.operationStack == Step(s, m.Opts(), op).frames
  {
    hide Proper, Homed, Threaded, Viewed, InUseIds, DisabledIds, FrameIds, BorrowMany, QubitPool.Allocate,
         QubitPool.Release, Borrowing.Return, LentPart, AddLocals, DropLocal;
    AsLong(m, s);
    match op
    case Allocate => var q := m.AllocateQubit(false);
    case Release(q) => var r := m.ReleaseQubit(q, false);
    case Borrow(n) => var ids := m.Borrow(n);
    case Return(q) => var r := m.Return(q);
    case Start(arguments) => m.OnOperationStart(arguments);
    case End => m.OnOperationEnd();
  }

  /**
   A program that keeps to its scopes, run on a manager: the manager follows the state machine, and the mark
   of an id only lent, minus the base mark, plus one, is its number of outstanding loans.
   */
  method RunProgram(qubitCapacity: int, mayExtend: bool, encourageReuse: bool, ops: seq<Operation>)
    returns (m: QubitManager)
    requires WellScoped(Capacity(qubitCapacity), Options(mayExtend, encourageReuse), ops)
    ensures fresh(m) && fresh(m.qubits) && m.Valid()
    ensures var s := Run(Capacity(qubitCapacity), Options(mayExtend, encourageReuse), ops);
      && m.pool == s.pool && m.operationStack == s.frames
      && (forall q: nat :: q < m.qubits.Length && m.qubits[q] >= m.allocatedForBorrowing ==>
            m.qubits[q] - m.allocatedForBorrowing + 1 == s.out[q])
  {
    hide Proper, Scoped, Run, InScope, Step, Initial, QubitManager.Valid;
    ghost var n, o := Capacity(qubitCapacity), Options(mayExtend, encourageReuse);
    m := new QubitManager(qubitCapacity, mayExtend, encourageReuse);
    RunNone(n, o, ops[..0]);
    for i := 0 to |ops|
      invariant fresh(m) && fresh(m.qubits) && m.Valid() && m.Opts() == o
      invariant m.pool == Run(n, o, ops[..i]).pool && m.operationStack == Run(n, o, ops[..i]).frames
    {
      ghost var s := Run(n, o, ops[..i]);
      UsedIffInUse(n, o, ops[..i]);
      Perform(m, s, ops[i]);
      assert ops[..i + 1][..i] == ops[..i];
      RunNext(n, o, ops[..i + 1]);
    }
    assert ops[..|ops|] == ops;
    MarksCount(m, Run(n, o, ops));
  }

  lemma RunNone(n: nat, o: Options, ops: seq<Operation>)
    requires n > 0 && ops == []
    ensures Run(n, o, ops) == Begin(n)
  {
  }

  lemma RunNext(n: nat, o: Options, ops: seq<Operation>)
    requires n > 0 && ops != []
    ensures var (s, op) := (Run(n, o, ops[..|ops| - 1]), ops[|ops| - 1]);
      InScope(s, o, op) ==> Run(n, o, ops) == Step(s, o, op)
  {
    hide Step, InScope;
  }

  lemma MarksCount(m: QubitManager, s: State)
    requires m.Valid() && m.pool == s.pool && Balanced(s.pool, s.out)
    ensures forall q: nat :: q < m.qubits.Length && m.qubits[q] >= m.allocatedForBorrowing ==>
      m.qubits[q] - m.allocatedForBorrowing + 1 == s.out[q]
  {
    hide Proper, Threaded;
    forall q: nat | q < m.qubits.Length && m.qubits[q] >= m.allocatedForBorrowing
      ensures m.qubits[q] - m.allocatedForBorrowing + 1 == s.out[q]
    {
      assert m.qubits[..][q] == m.qubits[q];
    }
  }

  /** Allocations, releases and disabling, run on a manager: the ids issued are those of the pool's run. */
  method RunEvents(qubitCapacity: int, mayExtend: bool, encourageReuse: bool, events: seq<Event>)
    returns (m: QubitManager, ids: seq<nat>)
    requires var (n, o) := (Capacity(qubitCapacity), Options(mayExtend, encourageReuse));
      forall i :: 0 <= i < |events| ==> Legal(QubitPool.Run(n, o, events[..i]).1, events[i])
    ensures fresh(m) && fresh(m.qubits) && m.Valid()
    ensures (ids, m.pool) == QubitPool.Run(Capacity(qubitCapacity), Options(mayExtend, encourageReuse), events)
    ensures mayExtend && !encourageReuse ==> ids == Sequential(0, |ids|)
    ensures var (n, o) := (Capacity(qubitCapacity), Options(mayExtend, encourageReuse));
      !mayExtend && !encourageReuse ==> ids + m.pool.free == Sequential(0, n) + Freed(n, o, events)
  {
    hide Proper, Legal, QubitPool.Run, QubitPool.Step, Initial, Sequential, QubitManager.Valid, Freed;
    ghost var n, o := Capacity(qubitCapacity), Options(mayExtend, encourageReuse);
    m := new QubitManager(qubitCapacity, mayExtend, encourageReuse);
    ids := [];
    NoEvents(n, o, events[..0]);
    for i := 0 to |events|
      invariant fresh(m) && fresh(m.qubits) && m.Valid() && m.Opts() == o
      invariant (ids, m.pool) == QubitPool.Run(n, o, events[..i])
    {
      var q := Handle(m, events[i]);
      assert events[..i + 1][..i] == events[..i];
      NextEvent(n, o, events[..i + 1]);
      ids := if q.Some? then ids + [q.value] else ids;
    }
    assert events[..|events|] == events;
    if o.NeverReuses() {
      NeverReissued(n, o, events);
    } else if !mayExtend && !encourageReuse {
      FirstFreedFirstIssued(n, o, events);
    }
  }

  method Handle(m: QubitManager, e: Event) returns (q: Option<nat>)
    requires m.Valid() && Legal(m.pool, e)
    modifies m, m.qubits
    ensures m.Valid() && (m.qubits == old(m.qubits) || fresh(m.qubits))
    ensures (q, m.pool) == QubitPool.Step(old(m.pool), m.Opts(), e)
  {
    hide Proper, Threaded, InUseIds, DisabledIds, QubitPool.Allocate, QubitPool.Release, AddLocals, DropLocal;
    match e
    case Allocating => q := m.AllocateQubit(false);
    case Releasing(x) =>
      q := None;
      var r := m.ReleaseQubit(x, false);
    case Disabling(x) =>
      q := None;
      m.Disable(x);
  }

  lemma NoEvents(n: nat, o: Options, events: seq<Event>)
    requires n > 0 && events == []
    ensures QubitPool.Run(n, o, events).0 == []
    ensures QubitPool.Run(n, o, events).1 == Initial(n)
  {
    hide Initial;
  }

  lemma NextEvent(n: nat, o: Options, events: seq<Event>)
    requires n > 0 && events != []
    ensures var ((ids, p), e) := (QubitPool.Run(n, o, events[..|events| - 1]), events[|events| - 1]);
      Legal(p, e) ==>
        var (q, p2) := QubitPool.Step(p, o, e);
        QubitPool.Run(n, o, events) == (if q.Some? then ids + [q.value] else ids, p2)
  {
    hide Legal, QubitPool.Step;
  }

  // ---------------------------------------------------------------- runs that go wrong

  /** The ids a batch allocates from a free list that is long enough are its first ones. */
  lemma FirstBatch(p: Pool, o: Options)
    requires Proper(p, o) && p == Pool([Free], [0]) && !o.mayExtend
    ensures BorrowMany(p, o, {}, 1) == (Some([0]), Pool([Lent(0)], []))
  {
    hide Proper, Grab, MarkAll, Candidates, ReleaseAll, LendAll;
    NoneToLend(p);
    GrabFixed(p, o, Lent(0), 1);
    assert p.free[..1] == [0] && p.free[1..] == [];
    MarkFirst();
    assert LentPart(p, {}, 1) + [0] == [0];
  }

  lemma NoneToLend(p: Pool)
    requires p.status == [Free]
    ensures Candidates(p.status, {}, 0) == [] && LendAll(p.status, []) == p.status
  {
  }

  lemma MarkFirst()
    ensures MarkAll([Free], [0], Lent(0)) == [Lent(0)]
  {
  }

  lemma SecondBatch(p: Pool, o: Options)
    requires Proper(p, o) && p == Pool([Lent(0)], []) && !o.mayExtend
    ensures var (r, p2) := BorrowMany(p, o, {}, 2); r.None? && p2.status == [Lent(1)]
    ensures LentPart(p, {}, 2) == [0]
  {
    hide Proper, Grab;
    assert Candidates(p.status, {}, 1) == [];
    assert Candidates(p.status, {}, 0) == [0];
    assert InUseIds(p.status) == {0};
    BorrowFailsIff(p, o, {}, 2);
    Borrowing.FailedBorrowIff(p, o, {}, 2);
    assert LendAll(p.status, [0]) == [Lent(1)];
  }

  lemma UsesNothing(status: seq<Status>)
    ensures FrameIds(Frame(multiset{}, []), status) == {}
  {
  }

  lemma AfterFirstBatch(o: Options)
    requires !o.mayExtend
    ensures InScope(Run(1, o, []), o, Borrow(1))
    ensures var s := Run(1, o, [Borrow(1)]); s.pool == Pool([Lent(0)], []) && s.frames == [Frame(multiset{0}, [])]
  {
    hide Proper, BorrowMany, Run, Homed, FrameIds;
    var s, ops := Begin(1), [Borrow(1)];
    assert ops[..0] == [];
    RunNone(1, o, ops[..0]);
    BeginHomed(1, o);
    HomedPool(s, o, map[]);
    assert s.pool.status == [Free] && s.pool.free == [0];
    FirstBatch(s.pool, o);
    UsesNothing(s.pool.status);
    assert InScope(s, o, Borrow(1));
    RunNext(1, o, ops);
    assert multiset{} + multiset([0]) == multiset{0};
  }

  /** An operation, called while one id is lent, fails to borrow two: the mark counts a loan nobody holds. */
  lemma FailedBorrowRun(o: Options)
    requires !o.mayExtend
    ensures var ops := [Borrow(1), Start([])];
      var s := Run(1, o, ops);
      && WellScoped(1, o, ops)
      && s.pool.status == [Lent(0)] && s.frames == [Frame(multiset{0}, []), Frame(multiset{}, [])]
      && var (r, p2, frames2) := BorrowInFrame(s.pool, o, s.frames, 2);
        r.None? && p2.status == [Lent(1)] && frames2[1].locals == multiset{0}
  {
    hide Proper, BorrowMany, Run, LentPart, Homed, FrameIds;
    var ops := [Borrow(1), Start([])];
    assert ops[..0] == [] && ops[..1] == [Borrow(1)] && ops[..2] == ops;
    AfterFirstBatch(o);
    RunNext(1, o, ops);
    var s := Run(1, o, ops);
    UsesNothing(s.pool.status);
    SecondBatch(s.pool, o);
  }

  /** At the start a single borrow has nothing to lend; the id it yields is in use after it was returned. */
  lemma SingleBorrowRun(n: nat, o: Options)
    requires n > 0
    ensures var s := Run(n, o, []);
      var (r, p2) := BorrowOne(s.pool, o, FrameIds(Top(s), s.pool.status));
      && InUseIds(s.pool.status) == {}
      && r == Some(0) && |p2.status| > 0 && InUseIds(Borrowing.Return(p2, o, 0).status) == {0}
  {
    hide Proper, Candidates, QubitPool.Allocate, InUseIds, FrameIds, Initial, Run;
    RunNone(n, o, []);
    InitialProper(n, o);
    UsesNothing(Initial(n).status);
    CandidateCount(Initial(n).status, {});
    FirstIssued(n, o);
    SingleBorrowIff(Initial(n), o, {});
  }

  lemma FirstIssued(n: nat, o: Options)
    requires n > 0 && Proper(Initial(n), o)
    ensures QubitPool.Allocate(Initial(n), o, Allocated).0 == Some(0)
  {
  }
}
