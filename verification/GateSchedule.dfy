/** The time at which each qubit is available again, and the heaviest chains of gates that explain it. */
module GateSchedule {

  datatype Gate = Gate(qubits: seq<nat>, duration: real)

  function Larger(a: real, b: real): real { if a >= b then a else b }

  /** When the qubit is available after the gates: each gate starts when all of its qubits are. */
  function Available(gates: seq<Gate>, q: nat): real
    decreases |gates|, 1, 0
  {
    if gates == [] then 0.0
    else
      var n := |gates| - 1;
      if q in gates[n].qubits then Latest(gates[..n], gates[n].qubits) + gates[n].duration else Available(gates[..n], q)
  }

  /** The latest of the times of some qubits, and of zero. */
  function Latest(gates: seq<Gate>, qs: seq<nat>): real
    decreases |gates|, 2, |qs|
  {
    if qs == [] then 0.0 else Larger(Latest(gates, qs[..|qs| - 1]), Available(gates, qs[|qs| - 1]))
  }

  predicate NonNegative(gates: seq<Gate>) { forall i :: 0 <= i < |gates| ==> gates[i].duration >= 0.0 }

  /** The latest time is at least each, and is one of them or zero. */
  lemma {:induction false} LatestIs(gates: seq<Gate>, qs: seq<nat>)
    ensures Latest(gates, qs) >= 0.0
    ensures forall i :: 0 <= i < |qs| ==> Available(gates, qs[i]) <= Latest(gates, qs)
    ensures Latest(gates, qs) == 0.0 || exists i :: 0 <= i < |qs| && Latest(gates, qs) == Available(gates, qs[i])
  {
    hide Available;
    if qs != [] {
      var n := |qs| - 1;
      LatestIs(gates, qs[..n]);
      assert forall i :: 0 <= i < n ==> qs[..n][i] == qs[i];
      if Latest(gates, qs) != 0.0 && Latest(gates, qs) != Available(gates, qs[n]) {
        var i :| 0 <= i < n && Latest(gates, qs[..n]) == Available(gates, qs[..n][i]);
        assert Latest(gates, qs) == Available(gates, qs[i]);
      }
    }
  }

  // ---------------------------------------------------------------- chains of gates

  predicate Shares(a: Gate, b: Gate) { exists i :: 0 <= i < |a.qubits| && a.qubits[i] in b.qubits }

  /** Gates in their order, each sharing a qubit with the next, the last one on `q`; or no gate at all. */
  predicate ChainTo(gates: seq<Gate>, c: seq<nat>, q: nat) {
    && (forall i :: 0 <= i < |c| ==> c[i] < |gates|)
    && (forall i :: 0 < i < |c| ==> c[i - 1] < c[i] && Shares(gates[c[i - 1]], gates[c[i]]))
    && (c != [] ==> q in gates[c[|c| - 1]].qubits)
  }

  function Weight(gates: seq<Gate>, c: seq<nat>): real
    requires forall i :: 0 <= i < |c| ==> c[i] < |gates|
  {
    if c == [] then 0.0 else Weight(gates, c[..|c| - 1]) + gates[c[|c| - 1]].duration
  }

  lemma {:induction false} WeightPrefix(gates: seq<Gate>, n: nat, c: seq<nat>)
    requires n <= |gates| && forall i :: 0 <= i < |c| ==> c[i] < n
    ensures Weight(gates[..n], c) == Weight(gates, c)
  {
    if c != [] {
      WeightPrefix(gates, n, c[..|c| - 1]);
    }
  }

  lemma {:induction false} Increasing(gates: seq<Gate>, c: seq<nat>, q: nat, i: nat)
    requires ChainTo(gates, c, q) && i < |c|
    ensures c[i] <= c[|c| - 1]
    decreases |c| - i
  {
    if i + 1 < |c| {
      Increasing(gates, c, q, i + 1);
    }
  }

  lemma {:induction false} AvailableGrows(gates: seq<Gate>, q: nat)
    requires gates != [] && NonNegative(gates)
    ensures Available(gates, q) >= Available(gates[..|gates| - 1], q)
  {
    var n := |gates| - 1;
    if q in gates[n].qubits {
      LatestIs(gates[..n], gates[n].qubits);
      var i :| 0 <= i < |gates[n].qubits| && gates[n].qubits[i] == q;
    }
  }

  lemma {:induction false} AvailableNonNegative(gates: seq<Gate>, q: nat)
    requires NonNegative(gates)
    ensures Available(gates, q) >= 0.0
  {
    if gates != [] {
      AvailableNonNegative(gates[..|gates| - 1], q);
      AvailableGrows(gates, q);
    }
  }

  /** No chain that ends on a qubit is heavier than the time the qubit is available. */
  lemma {:induction false} ChainBound(gates: seq<Gate>, c: seq<nat>, q: nat)
    requires NonNegative(gates) && ChainTo(gates, c, q)
    ensures Weight(gates, c) <= Available(gates, q)
    decreases |gates|
  {
    hide Shares;
    AvailableNonNegative(gates, q);
    if c != [] {
      var n, m := |gates| - 1, |c| - 1;
      if c[m] < n {
        forall i | 0 <= i < |c| ensures c[i] < n {
          Increasing(gates, c, q, i);
        }
        WeightPrefix(gates, n, c);
        ChainBound(gates[..n], c, q);
        AvailableGrows(gates, q);
      } else {
        LastGateBound(gates, c, q);
      }
    }
  }

  /** A chain through the last gate. */
  lemma {:induction false} LastGateBound(gates: seq<Gate>, c: seq<nat>, q: nat)
    requires NonNegative(gates) && ChainTo(gates, c, q) && c != [] && c[|c| - 1] == |gates| - 1
    ensures Weight(gates, c) <= Available(gates, q)
    decreases |gates|, 0
  {
    hide Available;
    var n, m := |gates| - 1, |c| - 1;
    LatestIs(gates[..n], gates[n].qubits);
    LastAvailable(gates, q);
    if m > 0 {
      var rest := c[..m];
      assert Shares(gates[c[m - 1]], gates[c[m]]);
      var k :| 0 <= k < |gates[c[m - 1]].qubits| && gates[c[m - 1]].qubits[k] in gates[n].qubits;
      var p := gates[c[m - 1]].qubits[k];
      ChainFront(gates, c, q, p);
      forall i | 0 <= i < m ensures c[i] < n {
        Increasing(gates, rest, p, i);
        assert rest[|rest| - 1] == c[m - 1];
      }
      WeightPrefix(gates, n, rest);
      ChainPrefix(gates, n, rest, p);
      ChainBound(gates[..n], rest, p);
      var i :| 0 <= i < |gates[n].qubits| && gates[n].qubits[i] == p;
      assert Available(gates[..n], gates[n].qubits[i]) <= Latest(gates[..n], gates[n].qubits);
    } else {
      assert c[..0] == [];
    }
  }

  lemma LastAvailable(gates: seq<Gate>, q: nat)
    requires gates != [] && q in gates[|gates| - 1].qubits
    ensures Available(gates, q) == Latest(gates[..|gates| - 1], gates[|gates| - 1].qubits) + gates[|gates| - 1].duration
  {
  }

  lemma ChainFront(gates: seq<Gate>, c: seq<nat>, q: nat, p: nat)
    requires ChainTo(gates, c, q) && |c| > 1 && p in gates[c[|c| - 2]].qubits
    ensures ChainTo(gates, c[..|c| - 1], p)
  {
    hide Shares;
  }

  lemma ChainPrefix(gates: seq<Gate>, n: nat, c: seq<nat>, q: nat)
    requires ChainTo(gates, c, q) && n <= |gates| && forall i :: 0 <= i < |c| ==> c[i] < n
    ensures ChainTo(gates[..n], c, q)
  {
    hide Shares;
  }

  /** Some chain that ends on the qubit weighs just the time the qubit is available. */
  lemma {:induction false} ChainReaches(gates: seq<Gate>, q: nat) returns (c: seq<nat>)
    requires NonNegative(gates)
    ensures ChainTo(gates, c, q) && Weight(gates, c) == Available(gates, q)
    decreases |gates|
  {
    hide Shares;
    c := [];
    if gates != [] {
      var n := |gates| - 1;
      if q in gates[n].qubits {
        LatestIs(gates[..n], gates[n].qubits);
        var rest: seq<nat> := [];
        if Latest(gates[..n], gates[n].qubits) != 0.0 {
          var i :|
            0 <= i < |gates[n].qubits|
            && Latest(gates[..n], gates[n].qubits) == Available(gates[..n], gates[n].qubits[i]);
          rest := ChainReaches(gates[..n], gates[n].qubits[i]);
          ChainLonger(gates, rest, gates[n].qubits[i], q);
        }
        WeightPrefix(gates, n, rest);
        c := rest + [n];
        assert c[..|c| - 1] == rest;
      } else {
        c := ChainReaches(gates[..n], q);
        WeightPrefix(gates, n, c);
        ChainWider(gates, n, c, q);
      }
    }
  }

  lemma ChainLonger(gates: seq<Gate>, c: seq<nat>, p: nat, q: nat)
    requires gates != [] && ChainTo(gates[..|gates| - 1], c, p)
    requires p in gates[|gates| - 1].qubits && q in gates[|gates| - 1].qubits
    ensures ChainTo(gates, c + [|gates| - 1], q)
  {
    var n, d := |gates| - 1, c + [|gates| - 1];
    forall i | 0 < i < |d| ensures d[i - 1] < d[i] && Shares(gates[d[i - 1]], gates[d[i]]) {
      if i < |c| {
        assert Shares(gates[..n][c[i - 1]], gates[..n][c[i]]);
      }
    }
  }

  lemma ChainWider(gates: seq<Gate>, n: nat, c: seq<nat>, q: nat)
    requires n <= |gates| && ChainTo(gates[..n], c, q)
    ensures ChainTo(gates, c, q)
  {
    hide Shares;
    forall i | 0 < i < |c| ensures c[i - 1] < c[i] && Shares(gates[c[i - 1]], gates[c[i]]) {
      assert Shares(gates[..n][c[i - 1]], gates[..n][c[i]]);
    }
  }

  /** The availability time is the weight of the heaviest chain that ends on the qubit. */
  lemma HeaviestChain(gates: seq<Gate>, q: nat)
    requires NonNegative(gates)
    ensures exists c :: ChainTo(gates, c, q) && Weight(gates, c) == Available(gates, q)
    ensures forall c :: ChainTo(gates, c, q) ==> Weight(gates, c) <= Available(gates, q)
  {
    hide Weight, Available;
    var c := ChainReaches(gates, q);
    forall d | ChainTo(gates, d, q) ensures Weight(gates, d) <= Available(gates, q) {
      ChainBound(gates, d, q);
    }
  }
}
