/**
 This module defines the circuit description the Grover builders emit: an
 ordered list of gate instructions, together with what it means for an
 instruction to fit a register of n qubits.
 */
module Gates {

  /** One instruction appended to a circuit. Qubit indices are plain integers
      because the builders compute `n - 1`, which is -1 for an empty register. */
  datatype Gate =
    | X(q: int)
    | H(q: int)
    | MCX(controls: seq<int>, target: int)
    | Barrier
    | Measure(qubit: int, clbit: int)

  type Circuit = seq<Gate>

  /** Python's `list(range(lo, hi))`. */
  function Range(lo: int, hi: int): (r: seq<int>)
    ensures |r| == if lo <= hi then hi - lo else 0
    ensures forall i :: 0 <= i < |r| ==> r[i] == lo + i
    ensures forall x :: x in r <==> lo <= x < hi
    decreases hi - lo
  {
    if hi <= lo then [] else [lo] + Range(lo + 1, hi)
  }

  predicate InRange(q: int, n: nat) {
    0 <= q < n
  }

  /** Pairwise distinct entries. */
  predicate Distinct(xs: seq<int>) {
    forall i, j :: 0 <= i < j < |xs| ==> xs[i] != xs[j]
  }

  /** The instruction fits an n-qubit, n-bit register: every index it names
      exists, and a multi-controlled X has distinct controls that do not
      include its target. */
  predicate WellFormed(g: Gate, n: nat) {
    match g
    case X(q) => InRange(q, n)
    case H(q) => InRange(q, n)
    case MCX(cs, t) =>
      && InRange(t, n)
      && Distinct(cs)
      && forall i :: 0 <= i < |cs| ==> InRange(cs[i], n) && cs[i] != t
    case Barrier => true
    case Measure(q, c) => InRange(q, n) && InRange(c, n)
  }

  predicate CircuitWellFormed(c: Circuit, n: nat) {
    forall i :: 0 <= i < |c| ==> WellFormed(c[i], n)
  }

  /** The qubits a gate names. A barrier names none here, although
      `qc.barrier()` spans the whole register; `Qubits` serves only
      `Parallel`, which is never asked of a list holding a barrier. */
  function Qubits(g: Gate): set<int> {
    match g
    case X(q) => {q}
    case H(q) => {q}
    case MCX(cs, t) => (set i | 0 <= i < |cs| :: cs[i]) + {t}
    case Barrier => {}
    case Measure(q, _) => {q}
  }

  /** No two gates of the list act on a common qubit, so their order within
      the list does not matter. */
  predicate Parallel(c: Circuit) {
    forall i, j :: 0 <= i < j < |c| ==> Qubits(c[i]) !! Qubits(c[j])
  }

  predicate IsMcx(g: Gate) { g.MCX? }

  predicate IsBarrier(g: Gate) { g.Barrier? }

  /** Well-formedness of a concatenation is well-formedness of its parts. */
  lemma WellFormedAppend(a: Circuit, b: Circuit, n: nat)
    requires CircuitWellFormed(a, n) && CircuitWellFormed(b, n)
    ensures CircuitWellFormed(a + b, n)
  {
    forall k | 0 <= k < |a + b| ensures WellFormed((a + b)[k], n) {
      if k >= |a| {
        assert (a + b)[k] == b[k - |a|];
      }
    }
  }

  /** What fits a register fits every larger one. */
  lemma WellFormedWiden(c: Circuit, m: nat, n: nat)
    requires CircuitWellFormed(c, m) && m <= n
    ensures CircuitWellFormed(c, n)
  {
    forall k | 0 <= k < |c| ensures WellFormed(c[k], n) {
      assert WellFormed(c[k], m);
    }
  }

  /** A gate acting on amplitudes (not a barrier or a measurement). */
  predicate IsUnitary(g: Gate) { g.X? || g.H? || g.MCX? }

  predicate AllUnitary(c: Circuit) {
    forall k :: 0 <= k < |c| ==> IsUnitary(c[k])
  }

  /** The number of gates of `c` satisfying `p`. */
  function Count(c: Circuit, p: Gate -> bool): (k: nat)
    ensures k <= |c|
    ensures k == 0 <==> forall i :: 0 <= i < |c| ==> !p(c[i])
  {
    if |c| == 0 then 0 else (if p(c[0]) then 1 else 0) + Count(c[1..], p)
  }

  lemma {:induction false} CountAppend(a: Circuit, b: Circuit, p: Gate -> bool)
    ensures Count(a + b, p) == Count(a, p) + Count(b, p)
    decreases |a|
  {
    if |a| == 0 {
      assert a + b == b;
    } else {
      assert (a + b)[1..] == a[1..] + b;
      CountAppend(a[1..], b, p);
    }
  }

  function Reverse<T>(s: seq<T>): (r: seq<T>)
    ensures |r| == |s|
    ensures forall i :: 0 <= i < |s| ==> r[i] == s[|s| - 1 - i]
  {
    if |s| == 0 then [] else Reverse(s[1..]) + [s[0]]
  }

  /** Concatenation of a list of layers into one gate list. */
  function Flatten<T>(layers: seq<seq<T>>): seq<T> {
    if |layers| == 0 then [] else layers[0] + Flatten(layers[1..])
  }
}
