/**
 Q# arrays: views with a start, a step and a length on reference-counted storage that several arrays
 share. `live` is the set of all arrays in use; none is ever dropped from it.
 */
module QArrays {
  import opened Sequences
  import opened Ranges

  /** The position in the storage of element `i` of a view. */
  function Position(start: int, step: int, i: int): int { start + i * step }

  /** Every element of the view lies in a storage of `n` elements. */
  predicate ViewFits(start: int, step: int, length: nat, n: int) {
    step != 0 && forall i :: 0 <= i < length ==> 0 <= Position(start, step, i) < n
  }

  function View<T>(items: seq<T>, start: int, step: int, length: nat): (r: seq<T>)
    requires ViewFits(start, step, length, |items|)
    ensures |r| == length && forall i :: 0 <= i < length ==> r[i] == items[Position(start, step, i)]
  {
    seq(length, i requires 0 <= i < length => items[Position(start, step, i)])
  }

  lemma WholeView<T>(items: seq<T>)
    ensures ViewFits(0, 1, |items|, |items|) && View(items, 0, 1, |items|) == items
  {
  }

  lemma Inside(start: int, step: int, length: nat, n: int, i: nat)
    requires ViewFits(start, step, length, n) && i < length
    ensures 0 <= Position(start, step, i) < n
  {
    hide Position;
  }

  lemma ZeroFactor(k: int, step: int)
    requires step != 0 && k * step == 0
    ensures k == 0
  {
  }

  lemma Injective(start: int, step: int, i: int, j: int)
    requires step != 0 && Position(start, step, i) == Position(start, step, j)
    ensures i == j
  {
    assert (i - j) * step == 0;
    ZeroFactor(i - j, step);
  }

  /** Setting the element at the position of an index changes that element of the view, if it has one. */
  lemma ViewSet<T>(items: seq<T>, start: int, step: int, length: nat, i: int, v: T)
    requires ViewFits(start, step, length, |items|) && i < length
    ensures 0 <= i ==> 0 <= Position(start, step, i) < |items|
    ensures 0 <= Position(start, step, i) < |items| ==>
      View(items[Position(start, step, i) := v], start, step, length) ==
      if 0 <= i then View(items, start, step, length)[i := v] else View(items, start, step, length)
  {
    hide Position;
    var p := Position(start, step, i);
    if 0 <= p < |items| {
      var after, before := View(items[p := v], start, step, length), View(items, start, step, length);
      forall j | 0 <= j < length ensures after[j] == if j == i then v else before[j] {
        Inside(start, step, length, |items|, j);
        if Position(start, step, j) == p {
          Injective(start, step, j, i);
        }
      }
    }
  }

  lemma InsideOrNot(start: int, step: int, length: nat, n: int, i: int)
    requires ViewFits(start, step, length, n) && i < length
    ensures 0 <= i ==> 0 <= Position(start, step, i) < n
  {
    hide Position;
  }

  lemma NoPosition(i: int)
    ensures Position(0, 1, i) == i
  {
  }

  // ---------------------------------------------------------------- slices of views

  lemma StartsBetween(x: int, s: int, k: int, i: int)
    requires 0 <= i <= k
    ensures x + i * s >= x || x + i * s >= x + k * s
    ensures x + i * s <= x || x + i * s <= x + k * s
  {
    if s >= 0 {
      Monotone(i, k, s);
    } else {
      Monotone(i, k, -s);
    }
  }

  lemma Monotone(i: int, k: int, s: int)
    requires 0 <= i <= k && s >= 0
    ensures 0 <= i * s <= k * s
  {
  }

  /** All values of a range that is not empty are indices exactly when the first and the last are. */
  lemma RangeInside(r: Range, length: nat)
    requires r.step != 0 && !IsEmpty(r)
    ensures var n := 1 + TruncDiv(r.end - r.start, r.step);
      && |Elements(r)| == n >= 1
      && ((forall x :: x in Elements(r) ==> 0 <= x < length)
          <==> 0 <= r.start < length && 0 <= r.start + (n - 1) * r.step < length)
  {
    hide Elements, TruncDiv, IsEmpty;
    ElementsAre(r);
    var e, n := Elements(r), |Elements(r)|;
    assert e[0] in e && e[n - 1] in e;
    assert e[0] == r.start && e[n - 1] == r.start + (n - 1) * r.step;
    forall x | x in e && 0 <= r.start < length && 0 <= e[n - 1] < length ensures 0 <= x < length {
      var i :| 0 <= i < n && e[i] == x;
      StartsBetween(r.start, r.step, n - 1, i);
    }
  }

  lemma ProductNonzero(a: int, b: int)
    requires a != 0 && b != 0
    ensures a * b != 0
  {
  }

  /** A view of a view. */
  lemma PositionOf(start: int, step: int, first: int, stride: int, i: int)
    ensures Position(Position(start, step, first), stride * step, i) == Position(start, step, At(first, stride, i))
  {
    assert (first + i * stride) * step == first * step + i * (stride * step);
  }

  lemma SliceFits(start: int, step: int, length: nat, n: int, r: Range)
    requires ViewFits(start, step, length, n) && r.step != 0 && forall x :: x in Elements(r) ==> 0 <= x < length
    ensures ViewFits(Position(start, step, r.start), r.step * step, |Elements(r)|, n)
    ensures r.start == r.end && !IsEmpty(r) ==> Elements(r) == [r.start]
  {
    hide Position, Elements, IsEmpty, At;
    ProductNonzero(r.step, step);
    ElementsAre(r);
    forall i | 0 <= i < |Elements(r)| ensures 0 <= Position(Position(start, step, r.start), r.step * step, i) < n {
      PositionOf(start, step, r.start, r.step, i);
      assert Elements(r)[i] in Elements(r);
      Inside(start, step, length, n, At(r.start, r.step, i));
    }
    if r.start == r.end && !IsEmpty(r) {
      AtZero(r.start, r.step);
      assert TruncDiv(0, r.step) == 0;
    }
  }

  lemma AtZero(x: int, s: int)
    ensures At(x, s, 0) == x
  {
  }

  lemma SliceView<T>(items: seq<T>, start: int, step: int, length: nat, r: Range)
    requires ViewFits(start, step, length, |items|) && r.step != 0 && forall x :: x in Elements(r) ==> 0 <= x < length
    ensures ViewFits(Position(start, step, r.start), r.step * step, |Elements(r)|, |items|)
    ensures forall i :: 0 <= i < |Elements(r)| ==> 0 <= Elements(r)[i] < length
    ensures forall i :: 0 <= i < |Elements(r)| ==>
      View(items, Position(start, step, r.start), r.step * step, |Elements(r)|)[i]
      == View(items, start, step, length)[Elements(r)[i]]
  {
    hide Position, Elements, IsEmpty, At;
    SliceFits(start, step, length, |items|, r);
    ElementsAre(r);
    forall i | 0 <= i < |Elements(r)|
      ensures 0 <= Elements(r)[i] < length
      ensures View(items, Position(start, step, r.start), r.step * step, |Elements(r)|)[i]
          == View(items, start, step, length)[Elements(r)[i]]
    {
      PositionOf(start, step, r.start, r.step, i);
      assert Elements(r)[i] in Elements(r);
    }
  }

  // ---------------------------------------------------------------- views that run past the end

  function Behind(start: int, step: int, length: nat, j: int): int { Position(start, step, length + j) }

  lemma WholeEnd(start: int, step: int, length: nat, n: int)
    requires ViewFits(start, step, length, n)
    ensures step != 0 && Position(0, 1, length) == length
  {
  }

  lemma BehindDistinct(start: int, step: int, length: nat, i: int, j: int)
    requires step != 0 && i != j
    ensures Behind(start, step, length, i) != Behind(start, step, length, j)
  {
    hide Position;
    if Behind(start, step, length, i) == Behind(start, step, length, j) {
      Injective(start, step, length + i, length + j);
    }
  }

  /** Behind a view with a positive step that runs to the end of the storage, the next positions are all new. */
  lemma NextPositions(start: int, step: int, length: nat, more: nat, n: int, j: int)
    requires step > 0 && Position(start, step, length) >= n && 0 <= j < more
    ensures n <= Behind(start, step, length, j) <= Position(start, step, length + more - 1)
  {
    assert Position(start, step, length + j) == Position(start, step, length) + j * step;
    assert Position(start, step, length + more - 1) == Position(start, step, length) + (more - 1) * step;
    Monotone(j, more - 1, step);
  }

  lemma LongerFits(start: int, step: int, length: nat, more: nat, n: int)
    requires step > 0 && ViewFits(start, step, length, n) && Position(start, step, length) >= n >= 0 && more > 0
    ensures n < Position(start, step, length + more - 1) + 1
    ensures ViewFits(start, step, length + more, Position(start, step, length + more - 1) + 1)
  {
    hide Position;
    NextPositions(start, step, length, more, n, 0);
    forall i | 0 <= i < length + more
      ensures 0 <= Position(start, step, i) < Position(start, step, length + more - 1) + 1
    {
      if i >= length {
        NextPositions(start, step, length, more, n, i - length);
      }
    }
  }

  /** A view of the old elements and of the new ones behind them. */
  lemma LongerView<T>(before: seq<T>, items: seq<T>, start: int, step: int, length: nat, added: seq<T>)
    requires step > 0 && ViewFits(start, step, length, |before|) && before <= items
    requires ViewFits(start, step, length + |added|, |items|)
    requires forall j :: 0 <= j < |added| ==> 0 <= Behind(start, step, length, j) < |items|
    requires forall j :: 0 <= j < |added| ==> items[Behind(start, step, length, j)] == added[j]
    ensures View(items, start, step, length + |added|) == View(before, start, step, length) + added
  {
    hide Position;
    var v, w := View(items, start, step, length + |added|), View(before, start, step, length) + added;
    forall i | 0 <= i < |v| ensures v[i] == w[i] {
      if i >= length {
        assert items[Behind(start, step, length, i - length)] == added[i - length];
      }
    }
  }

  // ---------------------------------------------------------------- several elements at once

  /**
   Sets the elements at the first `n` positions, in order; a position that does not exist is passed over.
   With `own`, the values are read from the sequence itself while it changes.
   */
  function Overwrite<T>(s: seq<T>, positions: seq<int>, values: seq<T>, own: bool, n: nat): (r: seq<T>)
    requires n <= |positions| == |values| && (own ==> |s| == |values|)
    ensures |r| == |s|
  {
    if n == 0 then s
    else
      var t := Overwrite(s, positions, values, own, n - 1);
      if 0 <= positions[n - 1] < |s| then t[positions[n - 1] := if own then t[n - 1] else values[n - 1]] else t
  }

  /** How many positions exist before the first that does not. */
  function Existing(positions: seq<int>, length: nat): (k: nat)
    ensures k <= |positions| && forall i :: 0 <= i < k ==> 0 <= positions[i] < length
    ensures k < |positions| ==> !(0 <= positions[k] < length)
  {
    if positions == [] then 0
    else
      var k := Existing(positions[..|positions| - 1], length);
      if k == |positions| - 1 && 0 <= positions[k] < length then k + 1 else k
  }

  /** The positions of a range are different, so each value ends at its place and nothing else changes. */
  lemma {:induction false} OverwriteRange<T>(s: seq<T>, r: Range, values: seq<T>, n: nat, q: nat)
    requires r.step != 0 && n <= |Elements(r)| == |values| && q < |s|
    ensures var t := Overwrite(s, Elements(r), values, false, n);
      && (forall i :: 0 <= i < n && Elements(r)[i] == q ==> t[q] == values[i])
      && ((forall i :: 0 <= i < n ==> Elements(r)[i] != q) ==> t[q] == s[q])
  {
    hide Elements;
    if n > 0 {
      OverwriteRange(s, r, values, n - 1, q);
      forall i | 0 <= i < n - 1 ensures Elements(r)[i] != Elements(r)[n - 1] {
        ElementsDiffer(r, i, n - 1);
      }
    }
  }

  lemma ElementsDiffer(r: Range, i: nat, j: nat)
    requires r.step != 0 && i < |Elements(r)| && j < |Elements(r)| && i != j
    ensures Elements(r)[i] != Elements(r)[j]
  {
    hide Elements;
    ElementsAre(r);
    if Elements(r)[i] == Elements(r)[j] {
      Injective(r.start, r.step, i, j);
    }
  }

  // ---------------------------------------------------------------- an array that is given its own values

  /** No element that the range has overwritten with another one is read after that. */
  ghost predicate ReadsFirst<T>(s: seq<T>, positions: seq<int>, n: nat)
    requires n <= |positions| == |s|
  {
    forall i, j :: 0 <= j < i < n && positions[j] == i && 0 <= positions[i] < |s| ==> s[j] == s[i]
  }

  /** What an array written with its own elements reads as the value for a position. */
  lemma OwnRead<T>(s: seq<T>, r: Range, n: nat)
    requires r.step != 0 && n < |Elements(r)| == |s|
    requires Overwrite(s, Elements(r), s, true, n) == Overwrite(s, Elements(r), s, false, n)
    ensures var x := Overwrite(s, Elements(r), s, true, n)[n];
      && (forall j :: 0 <= j < n && Elements(r)[j] == n ==> x == s[j])
      && ((forall j :: 0 <= j < n ==> Elements(r)[j] != n) ==> x == s[n])
  {
    hide Elements, Overwrite;
    OverwriteRange(s, r, s, n, n);
  }

  /**
   An array whose elements at a range are set to the array itself gets the values it had before if and only
   if no element is read after it was overwritten with another one.
   */
  lemma {:induction false} OwnRangeIff<T>(s: seq<T>, r: Range, n: nat)
    requires r.step != 0 && n <= |Elements(r)| == |s|
    ensures Overwrite(s, Elements(r), s, true, n) == Overwrite(s, Elements(r), s, false, n)
      <==> ReadsFirst(s, Elements(r), n)
  {
    hide Elements;
    if n > 0 {
      OwnRangeIff(s, r, n - 1);
      if ReadsFirst(s, Elements(r), n - 1) {
        OwnRangeStep(s, r, n - 1);
      } else {
        OwnRangeStays(s, r, n - 1);
      }
    }
  }

  lemma OwnRangeStep<T>(s: seq<T>, r: Range, m: nat)
    requires r.step != 0 && m < |Elements(r)| == |s| && ReadsFirst(s, Elements(r), m)
    requires Overwrite(s, Elements(r), s, true, m) == Overwrite(s, Elements(r), s, false, m)
    ensures Overwrite(s, Elements(r), s, true, m + 1) == Overwrite(s, Elements(r), s, false, m + 1)
      <==> ReadsFirst(s, Elements(r), m + 1)
  {
    hide Elements;
    OwnRead(s, r, m);
    var e := Elements(r);
    var t, x := Overwrite(s, e, s, true, m), Overwrite(s, e, s, true, m)[m];
    if 0 <= e[m] < |s| {
      assert t[e[m] := x][e[m]] == x && t[e[m] := s[m]][e[m]] == s[m];
    }
  }

  /** Results that differ stay different, as no later step writes where the values went wrong. */
  lemma OwnRangeStays<T>(s: seq<T>, r: Range, m: nat)
    requires r.step != 0 && m < |Elements(r)| == |s|
    requires Overwrite(s, Elements(r), s, true, m) != Overwrite(s, Elements(r), s, false, m)
    ensures Overwrite(s, Elements(r), s, true, m + 1) != Overwrite(s, Elements(r), s, false, m + 1)
  {
    hide Elements;
    var e := Elements(r);
    var t, u := Overwrite(s, e, s, true, m), Overwrite(s, e, s, false, m);
    var q :| 0 <= q < |s| && t[q] != u[q];
    if e[m] == q {
      OwnUnwritten(s, r, m, q);
    } else {
      assert Overwrite(s, e, s, true, m + 1)[q] == t[q] && Overwrite(s, e, s, false, m + 1)[q] == u[q];
    }
  }

  lemma {:induction false} OwnUnwritten<T>(s: seq<T>, r: Range, n: nat, q: nat)
    requires r.step != 0 && n < |Elements(r)| == |s| && q < |s| && Elements(r)[n] == q
    ensures Overwrite(s, Elements(r), s, true, n)[q] == s[q] == Overwrite(s, Elements(r), s, false, n)[q]
  {
    hide Elements;
    assert forall i :: 0 <= i < n ==> Elements(r)[i] != q by {
      forall i | 0 <= i < n ensures Elements(r)[i] != q {
        ElementsDiffer(r, i, n);
      }
    }
    Unwritten(s, Elements(r), s, true, n, q);
    Unwritten(s, Elements(r), s, false, n, q);
  }

  lemma {:induction false} Unwritten<T>(s: seq<T>, positions: seq<int>, values: seq<T>, own: bool, n: nat, q: nat)
    requires n <= |positions| == |values| && (own ==> |s| == |values|) && q < |s|
    requires forall i :: 0 <= i < n ==> positions[i] != q
    ensures Overwrite(s, positions, values, own, n)[q] == s[q]
  {
    if n > 0 {
      Unwritten(s, positions, values, own, n - 1, q);
    }
  }

  ghost predicate Palindrome<T>(s: seq<T>) { forall i :: 0 <= i < |s| ==> s[i] == s[|s| - 1 - i] }

  /**
   When the range names all elements, that is so exactly for a positive
   step or a value that reads the same backwards.
   */
  lemma OwnWholeRange<T>(s: seq<T>, r: Range)
    requires r.step != 0 && |Elements(r)| == |s| && forall x :: x in Elements(r) ==> 0 <= x < |s|
    ensures Overwrite(s, Elements(r), s, true, |s|) == Overwrite(s, Elements(r), s, false, |s|)
      <==> r.step > 0 || Palindrome(s)
  {
    hide Elements, Overwrite, ReadsFirst, Palindrome;
    OwnRangeIff(s, r, |s|);
    WholeRange(r, |s|);
    if r.step > 0 {
      ForwardReads(s, Elements(r));
    } else {
      BackwardReads(s, Elements(r));
    }
  }

  lemma ForwardReads<T>(s: seq<T>, e: seq<int>)
    requires |e| == |s| && forall i :: 0 <= i < |e| ==> e[i] == i
    ensures ReadsFirst(s, e, |s|)
  {
  }

  lemma BackwardReads<T>(s: seq<T>, e: seq<int>)
    requires |e| == |s| && forall i :: 0 <= i < |e| ==> e[i] == |s| - 1 - i
    ensures ReadsFirst(s, e, |s|) <==> Palindrome(s)
  {
    if ReadsFirst(s, e, |s|) {
      forall i | 0 <= i < |s| ensures s[i] == s[|s| - 1 - i] {
        var j := |s| - 1 - i;
        assert e[i] == j && e[j] == i;
      }
    }
  }

  lemma WholeRange(r: Range, n: nat)
    requires r.step != 0 && |Elements(r)| == n && forall x :: x in Elements(r) ==> 0 <= x < n
    ensures forall i :: 0 <= i < n ==> Elements(r)[i] == if r.step > 0 then i else n - 1 - i
  {
    hide Elements, At;
    ElementsAre(r);
    var e := Elements(r);
    if n > 0 {
      assert e[0] in e && e[n - 1] in e;
      AtIs(r, n - 1);
      AtIs(r, 0);
      UnitStep(r.start, r.step, n);
      forall i | 0 <= i < n ensures e[i] == if r.step > 0 then i else n - 1 - i {
        AtIs(r, i);
        if n > 1 {
          UnitProduct(i, r.step);
        }
      }
    }
  }

  lemma AtIs(r: Range, i: int)
    ensures At(r.start, r.step, i) == r.start + i * r.step
  {
  }

  lemma UnitProduct(i: int, step: int)
    requires step == 1 || step == -1
    ensures i * step == if step > 0 then i else -i
  {
  }

  lemma UnitStep(start: int, step: int, n: int)
    requires step != 0 && n > 0 && 0 <= start + 0 * step < n && 0 <= start + (n - 1) * step < n
    ensures n > 1 ==> (step == 1 && start == 0) || (step == -1 && start == n - 1)
    ensures n == 1 ==> start == 0
  {
    if n > 1 {
      Larger(n - 1, step);
      if step == 1 || step == -1 {
        UnitProduct(n - 1, step);
      }
    }
  }

  lemma Larger(k: int, step: int)
    requires k > 0
    ensures step >= 2 ==> k * step >= k + k
    ensures step <= -2 ==> k * step <= -k - k
  {
    var p := k * step;
    if step >= 2 {
      assert p == 2 * k + k * (step - 2);
    } else if step <= -2 {
      assert p == -2 * k + k * (step + 2);
    }
  }

  class QArrayInner<T> {
    var refCount: int
    var items: seq<T>

    constructor (items: seq<T>)
      ensures refCount == 1 && this.items == items
    {
      refCount := 1;
      this.items := items;
    }

    predicate UnsafeToSet(index: int)
      reads this
    {
      refCount > 1 && index < |items|
    }

    /**
     Sets an element here, or in a detached copy when the storage is shared; null for an index that does not
     exist, which is noticed after the copy has been detached.
     */
    method SetElement(index: int, value: T) returns (inner: QArrayInner?<T>)
      modifies this
      ensures refCount == if old(refCount) > 1 then old(refCount) - 1 else old(refCount)
      ensures inner == null <==> !(0 <= index < |old(items)|)
      ensures inner != null ==> inner.items == old(items)[index := value]
      ensures inner != null ==> if old(refCount) > 1 then fresh(inner) && inner.refCount == 1 else inner == this
      ensures inner != this ==> items == old(items)
    {
      inner := this;
      if refCount > 1 {
        inner := new QArrayInner(items);
        RemoveReference();
      }
      if !(0 <= index < |inner.items|) {
        return null;
      }
      inner.items := inner.items[index := value];
    }

    method UnsafeSetElement(index: nat, value: T)
      requires index < |items|
      modifies this`items
      ensures items == old(items)[index := value]
    {
      items := items[index := value];
    }

    method AddReference()
      modifies this`refCount
      ensures refCount == old(refCount) + 1
    {
      refCount := refCount + 1;
    }

    method RemoveReference()
      modifies this`refCount
      ensures refCount == old(refCount) - 1
    {
      refCount := refCount - 1;
    }

    /** Lengthens the storage with default values. */
    method Extend(newLength: nat, filler: T)
      requires |items| <= newLength
      modifies this`items
      ensures |items| == newLength && old(items) <= items
    {
      items := items + seq(newLength - |items|, i => filler);
    }
  }

  // ---------------------------------------------------------------- the heap of arrays

  /** The arrays that point to the storage `s`. */
  ghost function Sharers<T>(live: set<QArray<T>>, s: QArrayInner<T>): set<QArray<T>>
    reads live
  {
    set a | a in live && a.storage == s
  }

  /** Every array fits its storage. */
  ghost predicate AllFit<T>(live: set<QArray<T>>)
    reads live, set a | a in live :: a.storage
  {
    forall a :: a in live ==> a.Fits()
  }

  /** Every storage counts the arrays that share it. */
  ghost predicate Counted<T>(live: set<QArray<T>>)
    reads live, set a | a in live :: a.storage
  {
    forall a :: a in live ==> a.storage.refCount == |Sharers(live, a.storage)|
  }

  ghost predicate Wf<T>(live: set<QArray<T>>)
    reads live, set a | a in live :: a.storage
  {
    AllFit(live) && Counted(live)
  }

  /** The array's fields are as before, and so is the part of its storage it had. */
  twostate predicate Kept<T>(a: QArray<T>)
    reads a, a.storage
  {
    && a.storage == old(a.storage) && a.start == old(a.start) && a.step == old(a.step) && a.length == old(a.length)
    && old(a.storage.items) <= a.storage.items
  }

  /** The arrays of `others` are kept: their values stay. */
  twostate predicate AllKept<T>(others: set<QArray<T>>)
    reads others, set a | a in others :: a.storage
  {
    forall a :: a in others ==> Kept(a)
  }

  twostate lemma KeptContents<T>(a: QArray<T>)
    requires old(a.Fits()) && Kept(a)
    ensures a.Fits() && a.Contents() == old(a.Contents())
  {
    hide Position;
  }

  twostate lemma KeptFit<T>(live: set<QArray<T>>, new others: set<QArray<T>>)
    requires old(AllFit(live)) && others <= live && AllKept(others)
    ensures AllFit(others) && forall a :: a in others ==> a.Fits() && a.Contents() == old(a.Contents())
  {
    hide Kept, QArray.Fits, QArray.Contents;
    forall a | a in others ensures a.Fits() && a.Contents() == old(a.Contents()) {
      KeptContents(a);
    }
  }

  /** One more view of a storage, counted there. */
  twostate lemma CountedCopied<T>(live: set<QArray<T>>, new a: QArray<T>)
    requires old(Counted(live)) && a !in live && exists b :: b in live && b.storage == a.storage
    requires forall b :: b in live ==> b.storage == old(b.storage)
    requires forall b :: b in live ==>
      b.storage.refCount == if b.storage == a.storage then old(b.storage.refCount) + 1 else old(b.storage.refCount)
    ensures Counted(live + {a})
  {
    var more := live + {a};
    forall b | b in live ensures b.storage.refCount == |Sharers(more, b.storage)| {
      if b.storage == a.storage {
        assert Sharers(more, b.storage) == old(Sharers(live, b.storage)) + {a};
      } else {
        assert Sharers(more, b.storage) == old(Sharers(live, b.storage));
      }
    }
  }

  /** One array leaves a storage for one of its own. */
  twostate lemma CountedMoved<T>(live: set<QArray<T>>, new a: QArray<T>)
    requires old(Counted(live)) && a in live && a.storage.refCount == 1
    requires forall b :: b in live && b != a ==> b.storage == old(b.storage) && b.storage != a.storage
    requires forall b :: b in live && b != a ==>
      b.storage.refCount == if b.storage == old(a.storage) then old(b.storage.refCount) - 1 else old(b.storage.refCount)
    ensures Counted(live)
  {
    assert Sharers(live, a.storage) == {a};
    forall b | b in live && b != a ensures b.storage.refCount == |Sharers(live, b.storage)| {
      if b.storage == old(a.storage) {
        assert Sharers(live, b.storage) == old(Sharers(live, b.storage)) - {a};
      } else {
        assert Sharers(live, b.storage) == old(Sharers(live, b.storage));
      }
    }
  }

  twostate lemma CountedSame<T>(live: set<QArray<T>>)
    requires old(Counted(live))
    requires forall b :: b in live ==> b.storage == old(b.storage) && b.storage.refCount == old(b.storage.refCount)
    ensures Counted(live)
  {
    forall b | b in live ensures b.storage.refCount == |Sharers(live, b.storage)| {
      assert Sharers(live, b.storage) == old(Sharers(live, b.storage));
    }
  }

  /** A storage that several arrays share and that counts one less than before no longer counts them. */
  twostate lemma CountLost<T>(live: set<QArray<T>>, new a: QArray<T>)
    requires old(Counted(live)) && a in live && a.storage.refCount == old(a.storage.refCount) - 1
    requires forall b :: b in live ==> b.storage == old(b.storage)
    ensures !Counted(live)
  {
    assert Sharers(live, a.storage) == old(Sharers(live, a.storage));
  }

  lemma FitsAll<T>(live: set<QArray<T>>, a: QArray<T>)
    requires AllFit(live) && a in live
    ensures a.Fits()
  {
  }

  lemma AllFits<T>(live: set<QArray<T>>)
    requires AllFit(live)
    ensures forall a :: a in live ==> a.Fits()
  {
  }

  lemma FitOneMore<T>(live: set<QArray<T>>, a: QArray<T>)
    requires AllFit(live - {a}) && a.Fits()
    ensures AllFit(live)
  {
    hide QArray.Fits;
  }

  twostate lemma SameKept<T>(live: set<QArray<T>>)
    requires forall b :: b in live ==>
      b.storage == old(b.storage) && b.start == old(b.start) && b.step == old(b.step) && b.length == old(b.length)
      && b.storage.items == old(b.storage.items)
    ensures AllKept(live)
  {
  }

  lemma SameView<T>(a: QArray<T>, b: QArray<T>)
    requires a.Fits() && b.storage == a.storage && b.start == a.start && b.step == a.step && b.length == a.length
    ensures b.Fits() && b.Contents() == a.Contents()
  {
  }

  lemma FitJoined<T>(live: set<QArray<T>>, a: QArray<T>)
    requires AllFit(live) && a.Fits()
    ensures AllFit(live + {a}) && (Counted(live + {a}) ==> Wf(live + {a}))
  {
    hide QArray.Fits, Counted;
  }

  /** A new array with storage of its own joins the heap. */
  lemma FreshJoins<T>(live: set<QArray<T>>, a: QArray<T>)
    requires Wf(live) && a.Fits() && a.storage.refCount == 1 && a !in live
    requires forall b :: b in live ==> b.storage != a.storage
    ensures Wf(live + {a})
  {
    hide QArray.Fits;
    assert Sharers(live + {a}, a.storage) == {a};
    forall b | b in live ensures Sharers(live + {a}, b.storage) == Sharers(live, b.storage) {
    }
  }

  /** One storage is lengthened. */
  twostate lemma PrefixKept<T>(live: set<QArray<T>>)
    requires forall b :: b in live ==>
      b.storage == old(b.storage) && b.start == old(b.start) && b.step == old(b.step) && b.length == old(b.length)
      && old(b.storage.items) <= b.storage.items
    ensures AllKept(live)
  {
  }

  /** Arrays that share a storage with `a` make its count more than one. */
  lemma Shared<T>(live: set<QArray<T>>, a: QArray<T>)
    requires Counted(live) && a in live && a.storage.refCount <= 1
    ensures forall b :: b in live && b != a ==> b.storage != a.storage
  {
    forall b | b in live && b != a && b.storage == a.storage ensures false {
      assert Sharers(live, a.storage) >= {a, b};
      assert |{a, b}| == 2;
      SubsetSize({a, b}, Sharers(live, a.storage));
    }
  }

  lemma SubsetSize<T>(s: set<T>, t: set<T>)
    requires s <= t
    ensures |s| <= |t|
  {
    assert |t - s| == |t| - |s|;
  }

  class QArray<T> {
    var storage: QArrayInner<T>
    var start: int
    var step: int
    var length: nat

    ghost predicate Fits()
      reads this, storage
    {
      ViewFits(start, step, length, |storage.items|)
    }

    /** The value of the array. */
    ghost function Contents(): (r: seq<T>)
      requires Fits()
      reads this, storage
    {
      View(storage.items, start, step, length)
    }

    function ConvertIndex(index: int): int
      reads this
    {
      Position(start, step, index)
    }

    /** An array of its own with the elements given. */
    constructor (elements: seq<T>)
      ensures fresh(storage) && Fits() && Contents() == elements && storage.refCount == 1
      ensures storage.items == elements && length == |elements|
    {
      storage := new QArrayInner(elements);
      start, step, length := 0, 1, |elements|;
    }

    /** A second view of the storage of another array. */
    constructor Sharing(other: QArray<T>)
      modifies other.storage`refCount
      ensures storage == other.storage && start == other.start && step == other.step && length == other.length
      ensures storage.refCount == old(other.storage.refCount) + 1
    {
      storage, start, step, length := other.storage, other.start, other.step, other.length;
      new;
      storage.AddReference();
    }

    method Copy(ghost live: set<QArray<T>>) returns (copy: QArray<T>)
      requires Wf(live) && this in live
      modifies storage`refCount
      ensures fresh(copy) && copy.storage == storage && copy.start == start
      ensures copy.step == step && copy.length == length
      ensures Wf(live + {copy}) && AllKept(live) && copy.Contents() == Contents()
    {
      copy := new QArray.Sharing(this);
      SameKept(live);
      assert AllFit(live);
      SameView(this, copy);
      FitJoined(live, copy);
      CountedCopied(live, copy);
    }

    /**
     An element, or None for an index at or beyond the length. A negative index is refused by the storage
     only: it reads what lies there before the view, and is None exactly when nothing does.
     */
    method Get(index: int) returns (r: Option<T>)
      requires Fits()
      ensures index >= 0 ==> r == if index < |Contents()| then Some(Contents()[index]) else None
      ensures index < 0 ==>
        r == if 0 <= ConvertIndex(index) < |storage.items| then Some(storage.items[ConvertIndex(index)]) else None
    {
      hide Position;
      if index >= length {
        return None;
      }
      var p := ConvertIndex(index);
      assert 0 <= index < length ==> 0 <= Position(start, step, index) < |storage.items|;
      if !(0 <= p < |storage.items|) {
        return None;
      }
      r := Some(storage.items[p]);
    }

    method ToArray() returns (r: seq<T>)
      requires Fits()
      ensures r == Contents()
    {
      hide Position;
      r := [];
      for i := 0 to length
        invariant r == Contents()[..i]
      {
        assert 0 <= Position(start, step, i);
        r := r + [storage.items[ConvertIndex(i)]];
      }
    }

    /** Moves the array to storage of its own, in order and without gaps. */
    method CopyAndCompress(ghost live: set<QArray<T>>)
      requires Wf(live) && this in live
      modifies this, storage`refCount
      ensures Wf(live) && Contents() == old(Contents()) && AllKept(live - {this})
      ensures fresh(storage) && storage.refCount == 1 && start == 0 && step == 1 && length == old(length)
      ensures storage.items == old(Contents()) && forall a :: a in live && a != this ==> a.storage != storage
    {
      hide Counted, View, ViewFits;
      var elements := ToArray();
      var inner := new QArrayInner(elements);
      storage.RemoveReference();
      storage := inner;
      start := 0;
      step := 1;
      CountedMoved(live, this);
      WholeView(storage.items);
      KeptFit(live, live - {this});
    }

    /** Whether setting a negative index detaches a copy and then fails: the storage lies behind a descending view. */
    predicate LosesCount(index: int)
      reads this, storage
    {
      index < 0 && storage.refCount > 1 && ConvertIndex(index) >= |storage.items|
    }

    /**
     Sets one element; no other array changes. False for an index at or beyond the length. A negative index
     changes no value; it is refused unless it hits the array's own storage outside the view, and in one case
     the refusal leaves the count of the storage one short.
     */
    method Modify(index: int, value: T, ghost live: set<QArray<T>>) returns (ok: bool)
      requires Wf(live) && this in live
      modifies this, storage
      ensures AllFit(live) && length == old(length) && (storage == old(storage) || fresh(storage))
      ensures Wf(live) <==> !old(LosesCount(index))
      ensures old(LosesCount(index)) ==> storage == old(storage) && storage.refCount == old(storage.refCount) - 1
      ensures index >= 0 ==> ok == (index < old(length))
      ensures index < 0 ==> ok == old(storage.refCount <= 1 && 0 <= ConvertIndex(index) < |storage.items|)
      ensures Contents() == if ok && index >= 0 then old(Contents())[index := value] else old(Contents())
      ensures forall a :: a in live && a != this ==> a.Contents() == old(a.Contents())
    {
      hide Counted, AllFit, View, ViewFits, Position;
      FitsAll(live, this);
      if index >= length {
        return false;
      }
      InsideOrNot(start, step, length, |storage.items|, index);
      if storage.UnsafeToSet(ConvertIndex(index)) {
        CopyAndCompress(live);
        FitsAll(live, this);
        InsideOrNot(start, step, length, |storage.items|, index);
        NoPosition(index);
      }
      if storage.refCount <= 1 {
        Shared(live, this);
      }
      label Alone:
      ViewSet(storage.items, start, step, length, index, value);
      var inner := storage.SetElement(ConvertIndex(index), value);
      KeptFit@Alone(live, live - {this});
      if inner == null {
        FitOneMore(live, this);
        if old@Alone(storage.refCount) > 1 {
          CountLost@Alone(live, this);
        } else {
          CountedSame@Alone(live);
        }
        return false;
      }
      storage := inner;
      CountedSame@Alone(live);
      FitOneMore(live, this);
      ok := true;
    }

    /** A copy with a view of its own of the storage. */
    method Strided(newStart: int, newStep: int, newCount: nat, ghost live: set<QArray<T>>) returns (result: QArray<T>)
      requires Wf(live) && this in live && ViewFits(newStart, newStep, newCount, |storage.items|)
      modifies storage`refCount
      ensures AllKept(live) && fresh(result) && Wf(live + {result})
      ensures result.Contents() == View(storage.items, newStart, newStep, newCount)
      ensures result.storage == storage && result.start == newStart
      ensures result.step == newStep && result.length == newCount
    {
      hide Counted, View, ViewFits;
      result := Copy(live);
      label Copied:
      result.start := newStart;
      result.step := newStep;
      result.length := newCount;
      CountedSame@Copied(live + {result});
    }

    /**
     The elements the range names, in its order, sharing the storage; nothing changes elsewhere. False
     when the range names an index the array does not have.
     */
    method Slice(range: Option<Range>, ghost live: set<QArray<T>>) returns (result: QArray?<T>)
      requires Wf(live) && this in live && (range.Some? ==> range.value.step != 0)
      modifies storage`refCount
      ensures AllKept(live) && (result == null ==> Wf(live))
      ensures result != null <==> range.None? || forall x :: x in Elements(range.value) ==> 0 <= x < length
      ensures result != null ==> fresh(result) && Wf(live + {result})
      ensures result != null ==> result.storage == storage || fresh(result.storage)
      ensures result != null && range.None? ==> result.Contents() == []
      ensures result != null && range.Some? ==> |result.Contents()| == |Elements(range.value)|
      ensures result != null && range.Some? ==> forall i :: 0 <= i < |Elements(range.value)| ==>
        0 <= Elements(range.value)[i] < length && result.Contents()[i] == old(Contents())[Elements(range.value)[i]]
    {
      hide Counted, AllFit, View, ViewFits, Position, Elements, TruncDiv, IsEmpty;
      FitsAll(live, this);
      if range.None? || IsEmpty(range.value) {
        if range.Some? {
          ElementsAre(range.value);
        }
        result := new QArray([]);
        FreshJoins(live, result);
        return result;
      }
      var r := range.value;
      var rangeCount := 1 + TruncDiv(r.end - r.start, r.step);
      var rangeEnd := r.start + (rangeCount - 1) * r.step;
      RangeInside(r, length);
      if r.start >= length || r.start < 0 || rangeEnd >= length || rangeEnd < 0 {
        return null;
      }
      SliceFits(start, step, length, |storage.items|, r);
      if r.start == r.end {
        var x := Get(r.start);
        result := new QArray([x.value]);
        FreshJoins(live, result);
        return result;
      }
      result := Strided(ConvertIndex(r.start), r.step * step, rangeCount, live);
      SliceView(storage.items, start, step, length, r);
    }

    /** Writes the elements of `other` behind the end of the storage, where no array has an element. */
    method ExtendWith(other: QArray<T>, filler: T, ghost live: set<QArray<T>>)
      requires Wf(live) && this in live && other in live && other.length > 0
      requires step > 0 && Position(start, step, length) >= |storage.items|
      modifies storage`items
      ensures Wf(live) && AllKept(live) && ViewFits(start, step, length + other.length, |storage.items|)
      ensures View(storage.items, start, step, length + other.length) == old(Contents()) + old(other.Contents())
    {
      hide Counted, AllFit, View, ViewFits, Position;
      FitsAll(live, this);
      FitsAll(live, other);
      ghost var before, added := storage.items, other.Contents();
      LongerFits(start, step, length, other.length, |before|);
      var newEnd := ConvertIndex(length + other.length - 1) + 1;
      storage.Extend(newEnd, filler);
      for i := 0 to other.length
        invariant |storage.items| == newEnd && before <= storage.items
        invariant forall j :: 0 <= j < i ==> 0 <= Behind(start, step, length, j) < newEnd
        invariant forall j :: 0 <= j < i ==> storage.items[Behind(start, step, length, j)] == added[j]
      {
        KeptContents(other);
        NextPositions(start, step, length, other.length, |before|, i);
        var x := other.Get(i);
        var p := ConvertIndex(length + i);
        assert p == Behind(start, step, length, i);
        forall j | 0 <= j < i ensures Behind(start, step, length, j) != p {
          BehindDistinct(start, step, length, i, j);
        }
        storage.UnsafeSetElement(p, x.value);
      }
      LongerView(before, storage.items, start, step, length, added);
      PrefixKept(live);
      KeptFit(live, live);
      CountedSame(live);
    }

    /**
     Sets the elements the range names to the values given, which may be the array itself. False when the
     counts differ, or at the first index that is refused; the `done` elements before it are then already set.
     */
    method ModifyRange(indices: Range, values: QArray<T>, ghost live: set<QArray<T>>)
      returns (ok: bool, ghost done: nat)
      requires Wf(live) && this in live && values in live && indices.step != 0
      modifies this, storage
      ensures AllFit(live) && length == old(length) && (storage == old(storage) || fresh(storage))
      ensures forall a :: a in live && a != this ==> a.Contents() == old(a.Contents())
      ensures |Elements(indices)| != old(values.length) ==> !ok && done == 0
      ensures |Elements(indices)| == old(values.length) ==>
        done <= |Elements(indices)| && (ok <==> done == |Elements(indices)|)
      ensures Contents() == if |Elements(indices)| != old(values.length) then old(Contents())
              else Overwrite(old(Contents()), Elements(indices), old(values.Contents()), values == this, done)
      ensures forall i :: 0 <= i < done ==> Elements(indices)[i] < length
      ensures !ok && |Elements(indices)| == old(values.length) ==> !(0 <= Elements(indices)[done] < length)
      ensures (forall x :: x in Elements(indices) ==> x >= 0) ==> Wf(live)
    {
      hide Counted, AllFit, View, ViewFits, Position, Elements;
      var positions := Enumerate(indices);
      FitsAll(live, this);
      FitsAll(live, values);
      SameKept(live);
      KeptFit(live, live);
      done := 0;
      if values.length != |positions| {
        return false, 0;
      }
      ghost var before, added := Contents(), values.Contents();
      for i := 0 to |positions|
        invariant Wf(live) && Fits() && values.Fits() && values.length == |positions| && length == |before|
        invariant storage == old(storage) || fresh(storage)
        invariant done == i && forall j :: 0 <= j < i ==> positions[j] < length
        invariant Contents() == Overwrite(before, positions, added, values == this, i)
        invariant forall a :: a in live && a != this ==> a.Fits() && a.Contents() == old(a.Contents())
      {
        var x := values.Get(i);
        var next := Modify(positions[i], x.value, live);
        AllFits(live);
        if !next {
          assert positions[i] in positions;
          return false, i;
        }
        done := i + 1;
      }
      ok := true;
    }
  }

  /**
   The concatenation. It may lengthen the storage of `arr1` in place; the value of no array changes.
   Null arrays count as empty, except that an empty `arr1` with a null `arr2` gives null.
   */
  method Add<T>(arr1: QArray?<T>, arr2: QArray?<T>, filler: T, ghost live: set<QArray<T>>) returns (r: QArray?<T>)
    requires Wf(live) && (arr1 != null ==> arr1 in live) && (arr2 != null ==> arr2 in live)
    modifies if arr1 == null then {} else {arr1, arr1.storage}
    modifies if arr2 == null then {} else {arr2.storage}
    ensures r == null <==> arr2 == null && (arr1 == null || old(arr1.length) == 0)
    ensures r == null ==> Wf(live)
    ensures arr1 != null ==> arr1.storage == old(arr1.storage) || fresh(arr1.storage)
    ensures r != null ==> fresh(r.storage) || (arr1 != null && r.storage == arr1.storage)
    ensures r != null ==> fresh(r) && Wf(live + {r})
    ensures r != null ==> r.Contents() == old(ValueOf(arr1, live)) + old(ValueOf(arr2, live))
    ensures forall a :: a in live ==> a.Fits() && a.Contents() == old(a.Contents())
  {
    hide Counted, AllFit, View, ViewFits, Position;
    if arr1 != null { FitsAll(live, arr1); }
    if arr2 != null { FitsAll(live, arr2); }
    if arr1 == null || arr1.length == 0 {
      if arr2 == null {
        SameKept(live);
        KeptFit(live, live);
        return null;
      }
      var elements := arr2.ToArray();
      r := new QArray(elements);
      FreshJoins(live, r);
      SameKept(live);
      KeptFit(live, live);
      return;
    }
    if arr2 == null || arr2.length == 0 {
      r := arr1.Copy(live);
      KeptFit(live, live);
      return;
    }
    r := AddBehind(arr1, arr2, filler, live);
  }

  /** Writes the second array behind the first, copied first if its storage does not end there, and views both. */
  method AddBehind<T>(arr1: QArray<T>, arr2: QArray<T>, filler: T, ghost live: set<QArray<T>>)
    returns (r: QArray<T>)
    requires Wf(live) && arr1 in live && arr2 in live && arr1.length > 0 && arr2.length > 0
    modifies arr1, arr1.storage, arr2.storage
    ensures arr1.storage == old(arr1.storage) || fresh(arr1.storage)
    ensures fresh(r) && Wf(live + {r}) && r.storage == arr1.storage
    ensures r.Contents() == old(arr1.Contents()) + old(arr2.Contents())
    ensures forall a :: a in live ==> a.Fits() && a.Contents() == old(a.Contents())
  {
    hide Counted, AllFit, View, ViewFits, Position;
    FitsAll(live, arr1);
    FitsAll(live, arr2);
    WholeEnd(arr1.start, arr1.step, arr1.length, |arr1.storage.items|);
    SameKept(live);
    KeptFit(live, live);
    if arr1.step < 0 || arr1.ConvertIndex(arr1.length) < |arr1.storage.items| {
      arr1.CopyAndCompress(live);
      KeptFit(live, live - {arr1});
      AllFits(live);
    }
    assert forall a :: a in live ==> a.Fits() && a.Contents() == old(a.Contents());
    label Ready:
    arr1.ExtendWith(arr2, filler, live);
    KeptFit@Ready(live, live);
    label Extended:
    r := arr1.Strided(arr1.start, arr1.step, arr1.length + arr2.length, live);
    KeptFit@Extended(live, live);
  }

  ghost function ValueOf<T>(a: QArray?<T>, live: set<QArray<T>>): seq<T>
    requires Wf(live) && (a != null ==> a in live)
    reads live, set b | b in live :: b.storage
  {
    if a == null then [] else a.Contents()
  }

  // ---------------------------------------------------------------- two corners, at inputs that reach them

  /** [1, 2, 3] set to itself from the back: the first element read has been overwritten by then. */
  lemma ReversedOntoItself()
    ensures var (s, e) := ([1, 2, 3], Elements(Range(2, -1, 0)));
      e == [2, 1, 0] && Overwrite(s, e, s, true, 3) == [1, 2, 1] && Overwrite(s, e, s, false, 3) == [3, 2, 1]
  {
    var r := Range(2, -1, 0);
    assert ElementsFrom(r, -1) == [];
    assert ElementsFrom(r, 0) == [0];
    assert ElementsFrom(r, 1) == [1, 0];
    var s, e := [1, 2, 3], [2, 1, 0];
    assert Overwrite(s, e, s, true, 1) == [1, 2, 3][2 := 1] && Overwrite(s, e, s, false, 1) == [1, 2, 3][2 := 1];
    assert Overwrite(s, e, s, true, 2) == [1, 2, 1] && Overwrite(s, e, s, false, 2) == [1, 2, 1];
  }

  method ReverseOntoItself() returns (x: QArray<int>)
    ensures fresh(x) && x.Fits() && x.Contents() == [1, 2, 1]
  {
    hide Counted, AllFit, QArray.Contents, Elements, Overwrite, View;
    x := new QArray([1, 2, 3]);
    Alone(x);
    ReversedOntoItself();
    LengthIs(x);
    var ok, done := x.ModifyRange(Range(2, -1, 0), x, {x});
    FitsAll({x}, x);
  }

  lemma Alone<T>(x: QArray<T>)
    requires x.Fits() && x.storage.refCount == 1
    ensures Wf({x})
  {
    assert Sharers({x}, x.storage) == {x};
  }

  /**
   A refused negative index on a descending slice leaves the storage counted for one array while two share it:
   neither is copied when the other is set, so setting an element of one would change the other.
   */
  method RefusedIndexUncounts() returns (x: QArray<int>, y: QArray<int>)
    ensures x != y && x.storage == y.storage && x.Fits() && y.Fits()
    ensures x.Contents() == [1, 2, 3] && y.Contents() == [3, 2, 1]
    ensures forall i :: 0 <= i < 3 ==>
      !x.storage.UnsafeToSet(x.ConvertIndex(i)) && !y.storage.UnsafeToSet(y.ConvertIndex(i))
  {
    hide Counted, AllFit, QArray.Contents, View, ViewFits, Position, Wf, Kept, AllKept;
    x := new QArray([1, 2, 3]);
    Alone(x);
    Descending();
    label Made:
    y := x.Strided(2, -1, 3, {x});
    KeptFit@Made({x}, {x});
    assert {x} + {y} == {x, y};
    WfFits({x, y});
    BothShare(x, y);
    assert y.Contents() == [3, 2, 1] && y.ConvertIndex(-1) == 3;
    var ok := y.Modify(-1, 0, {x, y});
    AllFits({x, y});
  }

  lemma Descending()
    ensures ViewFits(2, -1, 3, 3) && View([1, 2, 3], 2, -1, 3) == [3, 2, 1] && Position(2, -1, -1) == 3
  {
    hide Position;
    forall i ensures Position(2, -1, i) == 2 - i {
      DescendingAt(i);
    }
  }

  lemma DescendingAt(i: int)
    ensures Position(2, -1, i) == 2 - i
  {
  }

  lemma BothShare<T>(x: QArray<T>, y: QArray<T>)
    requires Wf({x, y}) && x != y && x.storage == y.storage
    ensures y.storage.refCount == 2
  {
    assert Sharers({x, y}, y.storage) == {x, y};
  }

  // ---------------------------------------------------------------- programs over arrays

  /** What a program does with its arrays; each command but the last two makes a new one. */
  datatype Command<T> =
    | New(elements: seq<T>)
    | CopyOf(source: nat)
    | SliceOf(source: nat, range: Range)
    | Concat(left: nat, right: nat)
    | Set(target: nat, index: nat, value: T)
    | SetRange(target: nat, range: Range, source: nat)

  predicate Legal<T>(n: nat, c: Command<T>) {
    match c
    case New(_) => true
    case CopyOf(i) => i < n
    case SliceOf(i, r) => i < n && r.step != 0
    case Concat(i, j) => i < n && j < n
    case Set(i, _, _) => i < n
    case SetRange(i, r, j) => i < n && j < n && r.step != 0 && forall x :: x in Elements(r) ==> x >= 0
  }

  function Selected<T>(s: seq<T>, positions: seq<int>): (r: seq<T>)
    requires forall x :: x in positions ==> 0 <= x < |s|
    ensures |r| == |positions| && forall i :: 0 <= i < |r| ==> positions[i] in positions && r[i] == s[positions[i]]
  {
    seq(|positions|, i requires 0 <= i < |positions| => assert positions[i] in positions; s[positions[i]])
  }

  /** The command on plain values, which share nothing; what would throw changes nothing. */
  function Meaning<T>(values: seq<seq<T>>, c: Command<T>): seq<seq<T>>
    requires Legal(|values|, c)
  {
    match c
    case New(e) => values + [e]
    case CopyOf(i) => values + [values[i]]
    case SliceOf(i, r) =>
      if forall x :: x in Elements(r) ==> 0 <= x < |values[i]|
      then values + [Selected(values[i], Elements(r))]
      else values
    case Concat(i, j) => values + [values[i] + values[j]]
    case Set(i, k, v) => if k < |values[i]| then values[i := values[i][k := v]] else values
    case SetRange(i, r, j) =>
      var e := Elements(r);
      if |e| != |values[j]| then values
      else values[i := Overwrite(values[i], e, values[j], false, Existing(e, |values[i]|))]
  }

  /** A command does not give an array its own elements in an order in which it reads what it has overwritten. */
  ghost predicate InOrder<T>(values: seq<seq<T>>, c: Command<T>)
    requires Legal(|values|, c)
  {
    c.SetRange? && c.target == c.source && |Elements(c.range)| == |values[c.target]| ==>
      ReadsFirst(values[c.target], Elements(c.range), Existing(Elements(c.range), |values[c.target]|))
  }

  ghost predicate InOrderAll<T>(values: seq<seq<T>>, program: seq<Command<T>>) {
    forall i :: 0 <= i < |program| ==>
      var before := MeaningAll(values, program[..i]);
      Legal(|before|, program[i]) ==> InOrder(before, program[i])
  }

  /** The commands one after the other; one that names an array there is not is skipped. */
  function MeaningAll<T>(values: seq<seq<T>>, program: seq<Command<T>>): seq<seq<T>> {
    if program == [] then values
    else
      var before := MeaningAll(values, program[..|program| - 1]);
      var c := program[|program| - 1];
      if Legal(|before|, c) then Meaning(before, c) else before
  }

  ghost function ValuesOf<T>(arrays: seq<QArray<T>>): (r: seq<seq<T>>)
    requires forall a :: a in arrays ==> a.Fits()
    reads set a | a in arrays, set a | a in arrays :: a.storage
    ensures |r| == |arrays| && forall i :: 0 <= i < |arrays| ==> r[i] == arrays[i].Contents()
  {
    if arrays == [] then []
    else
      var n := |arrays| - 1;
      ValuesOf(arrays[..n]) + [arrays[n].Contents()]
  }

  class Environment<T> {
    var arrays: seq<QArray<T>>

    ghost function Live(): set<QArray<T>>
      reads this
    {
      set a | a in arrays
    }

    ghost function Storages(): set<QArrayInner<T>>
      reads this, Live()
    {
      set a | a in Live() :: a.storage
    }

    ghost predicate Valid()
      reads this, Live(), set a | a in Live() :: a.storage
    {
      Wf(Live()) && forall i, j :: 0 <= i < j < |arrays| ==> arrays[i] != arrays[j]
    }

    ghost function Values(): (r: seq<seq<T>>)
      requires Valid()
      reads this, Live(), set a | a in Live() :: a.storage
      ensures |r| == |arrays|
    {
      ValuesOf(arrays)
    }

    method NewArray(e: seq<T>)
      requires Valid()
      modifies this
      ensures Valid() && Values() == Meaning(old(Values()), New(e))
      ensures fresh(Live() - old(Live())) && fresh(Storages() - old(Storages()))
    {
      hide AllKept, QArray.Contents, ValuesOf, Counted, AllFit;
      var a := new QArray(e);
      FreshJoins(Live(), a);
      WfFits(Live());
      Append(a);
    }

    method SliceArray(i: nat, r: Range)
      requires Valid() && i < |arrays| && r.step != 0
      modifies this, set a | a in Live() :: a.storage
      ensures Valid() && Values() == Meaning(old(Values()), SliceOf(i, r))
      ensures fresh(Live() - old(Live())) && fresh(Storages() - old(Storages()))
    {
      hide Wf, AllKept, QArray.Fits, QArray.Contents, ValuesOf, Elements;
      WfFits(Live());
      LengthIs(arrays[i]);
      var a := arrays[i].Slice(Some(r), Live());
      KeptValues(arrays);
      if a != null {
        WfFits(Live() + {a});
        assert a.Contents() == Selected(old(arrays[i].Contents()), Elements(r));
        Append(a);
      }
    }

    method SetElement(i: nat, k: nat, v: T)
      requires Valid() && i < |arrays|
      modifies Live(), set a | a in Live() :: a.storage
      ensures Valid() && Values() == Meaning(old(Values()), Set(i, k, v))
      ensures fresh(Storages() - old(Storages()))
    {
      hide Wf, AllKept, QArray.Fits, QArray.Contents, ValuesOf;
      WfFits(Live());
      LengthIs(arrays[i]);
      ghost var before := Values();
      var ok := arrays[i].Modify(k, v, Live());
      WfFits(Live());
      forall j | 0 <= j < |arrays| && j != i ensures arrays[j].Contents() == before[j] {
      }
    }

    method Append(a: QArray<T>)
      requires a !in arrays && Wf(Live() + {a}) && forall i, j :: 0 <= i < j < |arrays| ==> arrays[i] != arrays[j]
      requires forall b :: b in arrays ==> b.Fits()
      modifies this
      ensures Valid() && arrays == old(arrays) + [a] && Values() == ValuesOf(old(arrays)) + [a.Contents()]
    {
      hide Wf, QArray.Fits, QArray.Contents;
      arrays := arrays + [a];
      assert Live() == old(Live()) + {a};
      WfFits(Live());
      assert arrays[..|arrays| - 1] == old(arrays);
    }

    method CopyArray(i: nat)
      requires Valid() && i < |arrays|
      modifies this, set a | a in Live() :: a.storage
      ensures Valid() && Values() == Meaning(old(Values()), CopyOf(i))
      ensures fresh(Live() - old(Live())) && fresh(Storages() - old(Storages()))
    {
      hide Wf, AllKept, QArray.Fits, QArray.Contents, ValuesOf, Elements, Selected;
      WfFits(Live());
      var a := arrays[i].Copy(Live());
      KeptValues(arrays);
      Append(a);
    }

    method ConcatArrays(i: nat, j: nat, filler: T)
      requires Valid() && i < |arrays| && j < |arrays|
      modifies this, Live(), set a | a in Live() :: a.storage
      ensures Valid() && Values() == Meaning(old(Values()), Concat(i, j))
      ensures fresh(Live() - old(Live())) && fresh(Storages() - old(Storages()))
    {
      hide Wf, AllKept, QArray.Fits, QArray.Contents, ValuesOf, Elements, Selected;
      WfFits(Live());
      var a := Add(arrays[i], arrays[j], filler, Live());
      ValuesSame(arrays);
      Append(a);
    }

    method SetElements(i: nat, r: Range, j: nat)
      requires Valid() && i < |arrays| && j < |arrays|
      requires r.step != 0 && forall x :: x in Elements(r) ==> x >= 0
      modifies Live(), set a | a in Live() :: a.storage
      ensures Valid()
      ensures Values() == Meaning(old(Values()), SetRange(i, r, j)) <==> InOrder(old(Values()), SetRange(i, r, j))
      ensures fresh(Storages() - old(Storages()))
    {
      hide Wf, AllKept, QArray.Fits, QArray.Contents, ValuesOf, Elements, Overwrite, ReadsFirst;
      WfFits(Live());
      LengthIs(arrays[i]);
      LengthIs(arrays[j]);
      ghost var before := Values();
      var ok, done := arrays[i].ModifyRange(r, arrays[j], Live());
      WfFits(Live());
      forall k | 0 <= k < |arrays| && k != i ensures arrays[k].Contents() == before[k] {
      }
      if |Elements(r)| == |before[j]| {
        assert forall x :: 0 <= x < done ==> Elements(r)[x] in Elements(r);
        ExistingIs(Elements(r), |before[i]|, done);
        if i == j {
          OwnRangeIff(before[i], r, done);
        }
      }
      ghost var t := arrays[i].Contents();
      assert Values() == before[i := t];
      ghost var u := Meaning(before, SetRange(i, r, j))[i];
      assert before[i := t][i] == t && before[i := u][i] == u;
    }

    /**
     One command on shared storage has its meaning on plain values, except when it gives an array its own
     elements: then exactly if that is done in order.
     */
    method Execute(c: Command<T>, filler: T)
      requires Valid() && Legal(|arrays|, c)
      modifies this, Live(), set a | a in Live() :: a.storage
      ensures Valid() && (Values() == Meaning(old(Values()), c) <==> InOrder(old(Values()), c))
      ensures fresh(Live() - old(Live())) && fresh(Storages() - old(Storages()))
    {
      hide Valid, Values, Meaning, Elements, Live, Storages;
      SameCount();
      match c {
        case New(e) => NewArray(e);
        case CopyOf(i) => CopyArray(i);
        case SliceOf(i, r) => SliceArray(i, r);
        case Concat(i, j) => ConcatArrays(i, j, filler);
        case Set(i, k, v) => SetElement(i, k, v);
        case SetRange(i, r, j) => SetElements(i, r, j);
      }
    }

    lemma SameCount()
      requires Valid()
      ensures |Values()| == |arrays|
    {
    }

    /** A program on shared storage computes what it does on plain values. */
    method Run(program: seq<Command<T>>, filler: T)
      requires Valid() && InOrderAll(Values(), program)
      modifies this, Live(), set a | a in Live() :: a.storage
      ensures Valid() && Values() == MeaningAll(old(Values()), program)
    {
      hide Wf, AllKept, QArray.Fits, QArray.Contents, ValuesOf, Meaning, Legal, InOrder;
      assert program[..0] == [];
      for i := 0 to |program|
        invariant Valid() && Values() == MeaningAll(old(Values()), program[..i])
        invariant fresh(Live() - old(Live())) && fresh(Storages() - old(Storages()))
      {
        assert program[..i + 1][..i] == program[..i];
        if Legal(|arrays|, program[i]) {
          Execute(program[i], filler);
        }
      }
      assert program[..|program|] == program;
    }
  }

  lemma ExistingIs(positions: seq<int>, length: nat, k: nat)
    requires k <= |positions| && forall i :: 0 <= i < k ==> 0 <= positions[i] < length
    requires k < |positions| ==> !(0 <= positions[k] < length)
    ensures Existing(positions, length) == k
  {
  }

  lemma WfFits<T>(live: set<QArray<T>>)
    requires Wf(live)
    ensures forall a :: a in live ==> a.Fits()
  {
  }

  lemma LengthIs<T>(a: QArray<T>)
    requires a.Fits()
    ensures |a.Contents()| == a.length
  {
  }

  twostate lemma ValuesSame<T>(arrays: seq<QArray<T>>)
    requires forall a :: a in arrays ==> old(a.Fits()) && a.Fits() && a.Contents() == old(a.Contents())
    ensures ValuesOf(arrays) == old(ValuesOf(arrays))
  {
    hide QArray.Fits, QArray.Contents;
  }

  twostate lemma KeptValues<T>(arrays: seq<QArray<T>>)
    requires old(Wf(set a | a in arrays)) && AllKept(set a | a in arrays)
    ensures forall a :: a in arrays ==> old(a.Fits()) && a.Fits()
    ensures ValuesOf(arrays) == old(ValuesOf(arrays))
  {
    hide QArray.Fits, QArray.Contents, Counted, AllKept;
    var live := set a | a in arrays;
    KeptFit(live, live);
    ValuesSame(arrays);
  }
}
