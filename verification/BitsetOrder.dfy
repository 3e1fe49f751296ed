/** The windowed comparison of bitsets is their numeric order, for every width. */
module BitsetOrder {
  import opened Operators

  function Pow2(n: nat): (p: nat)
    ensures p > 0
  {
    if n == 0 then 1 else 2 * Pow2(n - 1)
  }

  function Bit(l: Label, i: nat): nat { if i in l then 1 else 0 }

  /** The number held by bits `lo .. lo + n` of a label. */
  function Bits(l: Label, lo: nat, n: nat): nat {
    if n == 0 then 0 else Bits(l, lo, n - 1) + Bit(l, lo + n - 1) * Pow2(n - 1)
  }

  function Xor(a: Label, b: Label): Label { (a - b) + (b - a) }

  predicate FitsIn(l: Label, width: nat) { forall i :: i in l ==> i < width }

  lemma BitsBound(l: Label, lo: nat, n: nat)
    ensures Bits(l, lo, n) < Pow2(n)
  {
  }

  lemma {:induction false} PowSum(m: nat, n: nat)
    ensures Pow2(m + n) == Pow2(m) * Pow2(n)
  {
    if n > 0 {
      PowSum(m, n - 1);
      TwiceProduct(Pow2(m), Pow2(n - 1));
    }
  }

  lemma TwiceProduct(p: nat, q: nat)
    ensures p * (2 * q) == 2 * (p * q)
  {
  }

  lemma {:induction false} BitsSplit(l: Label, lo: nat, m: nat, n: nat)
    ensures Bits(l, lo, m + n) == Bits(l, lo, m) + Pow2(m) * Bits(l, lo + m, n)
  {
    if n > 0 {
      BitsSplit(l, lo, m, n - 1);
      PowSum(m, n - 1);
      Distribute(Pow2(m), Bits(l, lo + m, n - 1), Bit(l, lo + m + n - 1), Pow2(n - 1));
    }
  }

  lemma Distribute(p: nat, x: nat, b: nat, q: nat)
    ensures p * (x + b * q) == p * x + b * (p * q)
  {
  }

  predicate Agree(a: Label, b: Label, lo: nat, n: nat) { forall i :: lo <= i < lo + n ==> (i in a <==> i in b) }

  /** Equal numbers mean equal bits. */
  lemma {:induction false} BitsAgree(a: Label, b: Label, lo: nat, n: nat)
    ensures Bits(a, lo, n) == Bits(b, lo, n) <==> Agree(a, b, lo, n)
  {
    if n > 0 {
      BitsAgree(a, b, lo, n - 1);
      BitsBound(a, lo, n - 1);
      BitsBound(b, lo, n - 1);
      if Agree(a, b, lo, n) {
        assert Agree(a, b, lo, n - 1);
      } else {
        assert !Agree(a, b, lo, n - 1) || Bit(a, lo + n - 1) != Bit(b, lo + n - 1);
      }
    }
  }

  lemma {:induction false} BitsZero(l: Label, lo: nat, n: nat)
    ensures Bits(l, lo, n) == 0 <==> forall i :: lo <= i < lo + n ==> i !in l
  {
    if n > 0 {
      BitsZero(l, lo, n - 1);
    }
  }

  lemma XorWindow(a: Label, b: Label, lo: nat, n: nat)
    ensures Bits(Xor(a, b), lo, n) > 0 <==> Bits(a, lo, n) != Bits(b, lo, n)
  {
    BitsZero(Xor(a, b), lo, n);
    BitsAgree(a, b, lo, n);
  }

  /** Bits that agree above a window leave the decision to the window, then to what is below it. */
  lemma WindowDecides(a: Label, b: Label, lo: nat, n: nat, width: nat)
    requires lo + n <= width && Agree(a, b, lo + n, width - lo - n) && Bits(a, lo, n) != Bits(b, lo, n)
    ensures Bits(a, 0, width) < Bits(b, 0, width) <==> Bits(a, lo, n) < Bits(b, lo, n)
  {
    hide *;
    UpperSame(a, b, lo + n, width);
    BitsSplit(a, 0, lo, n);
    BitsSplit(b, 0, lo, n);
    BitsBound(a, 0, lo);
    BitsBound(b, 0, lo);
    HigherWins(Bits(a, lo, n), Bits(b, lo, n), Bits(a, 0, lo), Bits(b, 0, lo), Pow2(lo));
  }

  lemma HigherWins(x: nat, y: nat, u: nat, v: nat, p: nat)
    requires u < p && v < p && x != y
    ensures u + p * x < v + p * y <==> x < y
  {
    if x < y {
      assert p * (x + 1) <= p * y;
    } else {
      assert p * (y + 1) <= p * x;
    }
  }

  lemma UpperSame(a: Label, b: Label, lo: nat, width: nat)
    requires lo <= width && Agree(a, b, lo, width - lo)
    ensures Bits(a, 0, width) < Bits(b, 0, width) <==> Bits(a, 0, lo) < Bits(b, 0, lo)
  {
    BitsSplit(a, 0, lo, width - lo);
    BitsSplit(b, 0, lo, width - lo);
    BitsAgree(a, b, lo, width - lo);
  }

  /** Compares two bitsets in windows of 64 bits, from the top. */
  method Less(lhs: Label, rhs: Label, width: nat) returns (less: bool)
    requires FitsIn(lhs, width) && FitsIn(rhs, width)
    ensures less <==> Bits(lhs, 0, width) < Bits(rhs, 0, width)
  {
    hide Bits, Pow2;
    var mask := Xor(lhs, rhs);
    var i := width - 64;
    while i > 0
      invariant i <= width - 64
      invariant forall j: nat :: i + 64 <= j < width ==> (j in lhs <==> j in rhs)
    {
      XorWindow(lhs, rhs, i, 64);
      if Bits(mask, i, 64) > 0 {
        WindowDecides(lhs, rhs, i, 64, width);
        return Bits(lhs, i, 64) < Bits(rhs, i, 64);
      }
      BitsAgree(lhs, rhs, i, 64);
      i := i - 64;
    }
    LastWindow(lhs, rhs, width);
    return Bits(lhs, 0, 64) < Bits(rhs, 0, 64);
  }

  /** What the last window sees is all that may still differ. */
  lemma LastWindow(a: Label, b: Label, width: nat)
    requires FitsIn(a, width) && FitsIn(b, width)
    requires width > 64 ==> Agree(a, b, 64, width - 64)
    ensures Bits(a, 0, width) < Bits(b, 0, width) <==> Bits(a, 0, 64) < Bits(b, 0, 64)
  {
    hide Bits, Pow2;
    if width >= 64 {
      UpperSame(a, b, 64, width);
    } else {
      UpperSame(a, b, width, 64);
    }
  }

  /** Different labels within the width have different numbers. */
  lemma OrderTotal(a: Label, b: Label, width: nat)
    requires FitsIn(a, width) && FitsIn(b, width) && a != b
    ensures Bits(a, 0, width) != Bits(b, 0, width)
  {
    hide Bits;
    BitsAgree(a, b, 0, width);
    assert Xor(a, b) != {};
    var i :| i in Xor(a, b);
  }
}
