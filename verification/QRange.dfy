/** Ranges `start .. step .. end`, their enumeration, and their reversal. */
module Ranges {

  /** C#'s integer division, which truncates towards zero. */
  function TruncDiv(a: int, b: int): int
    requires b != 0
  {
    if a >= 0 then (if b > 0 then a / b else -(a / -b))
    else (if b > 0 then -(-a / b) else -a / -b)
  }

  datatype Range = Range(start: int, step: int, end: int)

  const EMPTY := Range(1, 1, 0)

  predicate IsEmpty(r: Range) { (r.end < r.start && r.step >= 0) || (r.end > r.start && r.step <= 0) }

  function Reverse(r: Range): Range
    requires r.step != 0
  {
    if IsEmpty(r) then EMPTY
    else Range(r.start + TruncDiv(r.end - r.start, r.step) * r.step, -r.step, r.start)
  }

  /** Whether the enumeration yields `x`: it goes on while the end is not passed. */
  predicate Within(r: Range, x: int) { if r.step > 0 then x <= r.end else x >= r.end }

  /** The values from `x` on, in the order of the enumeration. */
  function ElementsFrom(r: Range, x: int): seq<int>
    requires r.step != 0
    decreases if r.step > 0 then r.end - x + 1 else x - r.end + 1
  {
    if Within(r, x) then [x] + ElementsFrom(r, x + r.step) else []
  }

  function Elements(r: Range): seq<int>
    requires r.step != 0
  {
    ElementsFrom(r, r.start)
  }

  /** The enumeration, with a loop for either direction. */
  method Enumerate(r: Range) returns (s: seq<int>)
    requires r.step != 0
    ensures s == Elements(r)
  {
    s := [];
    var current := r.start;
    if r.step > 0 {
      while current <= r.end
        invariant s + ElementsFrom(r, current) == Elements(r)
        decreases r.end - current + 1
      {
        s := s + [current];
        current := current + r.step;
      }
    } else {
      while current >= r.end
        invariant s + ElementsFrom(r, current) == Elements(r)
        decreases current - r.end + 1
      {
        s := s + [current];
        current := current + r.step;
      }
    }
  }

  // ---------------------------------------------------------------- what is enumerated

  /** How many values there are from `x` on: the quotient of the distance by the step, plus one. */
  function CountFrom(r: Range, x: int): nat
    requires r.step != 0
  {
    if !Within(r, x) then 0
    else if r.step > 0 then (r.end - x) / r.step + 1
    else (x - r.end) / -r.step + 1
  }

  lemma OneStep(d: int, s: int)
    requires s > 0 && d >= 0
    ensures d >= s ==> d / s == (d - s) / s + 1
    ensures d < s ==> d / s == 0
  {
    if d >= s {
      assert d == s * (d / s) + d % s;
      assert d - s == s * (d / s - 1) + d % s;
      QuotientUnique(d - s, s, d / s - 1, d % s);
    }
  }

  lemma QuotientUnique(d: int, s: int, q: int, m: int)
    requires s > 0 && d == s * q + m && 0 <= m < s
    ensures d / s == q
  {
    var p, n := d / s, d % s;
    assert s * (q - p) == n - m && s * (p - q) == m - n;
    if q > p {
      Bigger(s, q - p);
    } else if p > q {
      Bigger(s, p - q);
    }
  }

  lemma Bigger(s: int, k: int)
    requires s > 0 && k >= 1
    ensures s * k >= s
  {
  }

  lemma CountStep(r: Range, x: int)
    requires r.step != 0 && Within(r, x)
    ensures CountFrom(r, x) == CountFrom(r, x + r.step) + 1
  {
    if r.step > 0 {
      OneStep(r.end - x, r.step);
    } else {
      OneStep(x - r.end, -r.step);
    }
  }

  /** The values are `x`, `x + step`, ... and there are as many as the count says. */
  lemma {:induction false} ElementsFromAre(r: Range, x: int)
    requires r.step != 0
    ensures |ElementsFrom(r, x)| == CountFrom(r, x)
    ensures forall i :: 0 <= i < |ElementsFrom(r, x)| ==> ElementsFrom(r, x)[i] == At(x, r.step, i)
    decreases if r.step > 0 then r.end - x + 1 else x - r.end + 1
  {
    hide CountFrom;
    CountNone(r, x);
    if Within(r, x) {
      ElementsFromAre(r, x + r.step);
      CountStep(r, x);
      var rest := ElementsFrom(r, x + r.step);
      forall i | 0 <= i < |rest| + 1 ensures ([x] + rest)[i] == At(x, r.step, i) {
        if i > 0 {
          AtNext(x, r.step, i - 1);
        }
      }
    }
  }

  lemma CountNone(r: Range, x: int)
    requires r.step != 0
    ensures !Within(r, x) ==> CountFrom(r, x) == 0
  {
  }

  function At(x: int, step: int, i: int): int { x + i * step }

  lemma AtNext(x: int, step: int, i: int)
    ensures At(x + step, step, i) == At(x, step, i + 1)
  {
  }

  /** A range is empty exactly when it enumerates nothing; otherwise its length is the truncated quotient plus one. */
  lemma ElementsAre(r: Range)
    requires r.step != 0
    ensures IsEmpty(r) <==> Elements(r) == []
    ensures !IsEmpty(r) ==> |Elements(r)| == 1 + TruncDiv(r.end - r.start, r.step)
    ensures forall i :: 0 <= i < |Elements(r)| ==> Elements(r)[i] == At(r.start, r.step, i)
  {
    hide ElementsFrom, At;
    ElementsFromAre(r, r.start);
  }

  /** The values of the reverse are the values in the opposite order. */
  lemma ReverseReverses(r: Range)
    requires r.step != 0
    ensures Reverse(r).step != 0 && |Elements(Reverse(r))| == |Elements(r)|
    ensures forall i :: 0 <= i < |Elements(r)| ==> Elements(Reverse(r))[i] == Elements(r)[|Elements(r)| - 1 - i]
  {
    hide Elements, At, TruncDiv;
    ElementsAre(r);
    ElementsAre(Reverse(r));
    if !IsEmpty(r) {
      var k := TruncDiv(r.end - r.start, r.step);
      QuotientSign(r.end - r.start, r.step);
      ReverseCount(r.start, r.step, k);
      forall i | 0 <= i < |Elements(r)| ensures Elements(Reverse(r))[i] == Elements(r)[|Elements(r)| - 1 - i] {
        ReverseAt(r.start, r.step, k, i);
      }
    } else {
      assert Elements(Reverse(r)) == [];
    }
  }

  lemma QuotientSign(d: int, s: int)
    requires s != 0 && !(d < 0 && s >= 0) && !(d > 0 && s <= 0)
    ensures TruncDiv(d, s) >= 0
  {
    if s > 0 {
      PositiveQuotient(d, s);
    } else if d < 0 {
      PositiveQuotient(-d, -s);
    }
  }

  lemma PositiveQuotient(d: int, s: int)
    requires d >= 0 && s > 0
    ensures d / s >= 0
  {
  }

  lemma ReverseCount(start: int, step: int, k: int)
    requires step != 0 && k >= 0
    ensures var r := Range(start + k * step, -step, start); !IsEmpty(r) && TruncDiv(r.end - r.start, r.step) == k
  {
    Multiple(step, k);
    if step > 0 {
      assert k * step == step * k;
      QuotientUnique(k * step, step, k, 0);
    } else {
      assert k * -step == -step * k;
      QuotientUnique(k * -step, -step, k, 0);
      NegatedProduct(k, step);
    }
  }

  lemma NegatedProduct(k: int, step: int)
    ensures -(k * step) == k * -step
  {
  }

  lemma Multiple(step: int, k: int)
    requires k >= 0
    ensures step > 0 ==> k * step >= 0
    ensures step < 0 ==> k * step <= 0
  {
  }

  lemma ReverseAt(start: int, step: int, k: int, i: int)
    ensures At(start + k * step, -step, i) == At(start, step, k - i)
  {
  }
}
