/** Sequences of ids, and the options the managers of ids are made with. */
module Sequences {

  datatype Option<T> = None | Some(value: T)

  datatype Options = Options(mayExtend: bool, encourageReuse: bool) {
    /** Released ids are never issued again. */
    predicate NeverReuses() { mayExtend && !encourageReuse }
  }

  predicate NoDuplicates(s: seq<nat>) { forall i, j :: 0 <= i < j < |s| ==> s[i] != s[j] }

  /** The ids `lo .. hi` in order. */
  function Sequential(lo: nat, hi: nat): (s: seq<nat>)
    requires lo <= hi
    ensures |s| == hi - lo && forall i :: 0 <= i < |s| ==> s[i] == lo + i
  {
    seq(hi - lo, i requires 0 <= i < hi - lo => lo + i)
  }
}
