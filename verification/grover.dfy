/**
 `grover_algorithm(n, target)`: uniform superposition, one oracle, a
 barrier, one diffuser, a barrier, and a measurement of every qubit into
 the classical bit of the same index.
 */
module Grover {
  import opened Gates
  import opened Basis
  import opened Oracle
  import opened Diffusion

  /** `qc.measure(range(n), range(n))`: qubit i into classical bit i. */
  function MeasureAll(n: nat): Circuit {
    seq(n, i => Measure(i, i))
  }

  /** The measurement stage measures every qubit once, into the classical
      bit of the same index, and does nothing else. */
  lemma MeasureAllContents(n: nat)
    ensures |MeasureAll(n)| == n
    ensures forall g :: g in MeasureAll(n) <==> g.Measure? && 0 <= g.qubit < n && g.clbit == g.qubit
    ensures CircuitWellFormed(MeasureAll(n), n)
  {
    var m := MeasureAll(n);
    forall q | 0 <= q < n ensures Measure(q, q) in m {
      assert m[q] == Measure(q, q);
    }
  }

  /** The gates of `grover_algorithm(n, target)`. The oracle takes its width
      from the target and everything else from n. The source does not check
      that the two agree; `GroverWellFormed` states when the result fits the
      register. */
  function GroverAlgorithm(n: nat, target: string): (r: Circuit)
    ensures |r| == 6 * n + 2 * ZeroCount(target) + 8
  {
    HAll(n) + GroverOracle(target) + [Barrier] + Diffuser(n) + [Barrier] + MeasureAll(n)
  }

  /** The order of the stages: H on every qubit, the oracle, a barrier, the
      diffuser, a barrier, then the measurements, qubit i into bit i. */
  lemma GroverLayout(n: nat, target: string)
    ensures var r, o := GroverAlgorithm(n, target), |GroverOracle(target)|;
      && (forall i :: 0 <= i < n ==> r[i] == H(i))
      && r[n..n + o] == GroverOracle(target)
      && r[n + o] == Barrier
      && r[n + o + 1..5 * n + o + 4] == Diffuser(n)
      && r[5 * n + o + 4] == Barrier
      && (forall i :: 0 <= i < n ==> r[|r| - n + i] == Measure(i, i))
  {
    GroverMiddle(n, target);
    GroverEnds(n, target);
  }

  lemma GroverMiddle(n: nat, target: string)
    ensures var r, o := GroverAlgorithm(n, target), |GroverOracle(target)|;
      && r[n..n + o] == GroverOracle(target)
      && r[n + o] == Barrier
      && r[n + o + 1..5 * n + o + 4] == Diffuser(n)
      && r[5 * n + o + 4] == Barrier
  {
    var h, o, d, m := HAll(n), GroverOracle(target), Diffuser(n), MeasureAll(n);
    StagesAt(h, o, d, m);
  }

  lemma GroverEnds(n: nat, target: string)
    ensures var r := GroverAlgorithm(n, target);
      && (forall i :: 0 <= i < n ==> r[i] == H(i))
      && (forall i :: 0 <= i < n ==> r[|r| - n + i] == Measure(i, i))
  {
    var h, o, d, m := HAll(n), GroverOracle(target), Diffuser(n), MeasureAll(n);
    EndsOf(h, o, d, m, n);
  }

  lemma EndsOf(h: Circuit, o: Circuit, d: Circuit, m: Circuit, n: nat)
    requires |h| == n && |m| == n
    requires forall i :: 0 <= i < n ==> h[i] == H(i) && m[i] == Measure(i, i)
    ensures var r := h + o + [Barrier] + d + [Barrier] + m;
      && (forall i :: 0 <= i < n ==> r[i] == H(i))
      && (forall i :: 0 <= i < n ==> r[|r| - n + i] == Measure(i, i))
  {
    var rest := o + [Barrier] + d + [Barrier];
    var pre := h + o + [Barrier] + d + [Barrier];
    assert pre == h + rest;
    var r := pre + m;
    forall i | 0 <= i < n ensures r[i] == H(i) {
      assert r[i] == pre[i] == h[i];
    }
    forall i | 0 <= i < n ensures r[|r| - n + i] == Measure(i, i) {
      assert r[|pre| + i] == m[i];
    }
  }

  /** Where each stage lands in a concatenation of the shape the circuit
      has. */
  lemma StagesAt(h: Circuit, o: Circuit, d: Circuit, m: Circuit)
    ensures var r := h + o + [Barrier] + d + [Barrier] + m;
      && (forall i :: 0 <= i < |h| ==> r[i] == h[i])
      && r[|h|..|h| + |o|] == o
      && r[|h| + |o|] == Barrier
      && r[|h| + |o| + 1..|h| + |o| + 1 + |d|] == d
      && r[|h| + |o| + 1 + |d|] == Barrier
      && (forall i :: 0 <= i < |m| ==> r[|r| - |m| + i] == m[i])
  {
    var p2 := h + o + [Barrier];
    var p4 := p2 + d + [Barrier];
    assert p4 + m == h + o + [Barrier] + d + [Barrier] + m;
    assert (p4 + m)[..|p4|] == p4;
    assert p4[..|p2|] == p2;
  }

  /** Exactly one oracle and exactly one diffuser: the circuit holds two
      barriers and two multi-controlled X gates. */
  lemma GroverCounts(n: nat, target: string)
    ensures Count(GroverAlgorithm(n, target), IsBarrier) == 2
    ensures Count(GroverAlgorithm(n, target), IsMcx) == 2
  {
    var h, o, d, m := HAll(n), GroverOracle(target), Diffuser(n), MeasureAll(n);
    assert Count(o, IsMcx) == 1 by { OracleLayout(target); }
    assert Count(d, IsMcx) == 1 by { DiffuserShape(n); }
    assert Count(o, IsBarrier) == 0 by { OracleUnitary(target); }
    assert Count(d, IsBarrier) == 0 by { DiffuserUnitary(n); }
    assert Count(h, IsBarrier) == 0 && Count(h, IsMcx) == 0;
    assert Count(m, IsBarrier) == 0 && Count(m, IsMcx) == 0;
    assert Count([Barrier], IsBarrier) == 1 && Count([Barrier], IsMcx) == 0;
    CountStages(n, target, IsBarrier);
    CountStages(n, target, IsMcx);
  }

  /** A count over the circuit is the sum of the counts over its stages. */
  lemma CountStages(n: nat, target: string, p: Gate -> bool)
    ensures Count(GroverAlgorithm(n, target), p)
      == Count(HAll(n), p) + Count(GroverOracle(target), p) + Count([Barrier], p)
       + Count(Diffuser(n), p) + Count([Barrier], p) + Count(MeasureAll(n), p)
  {
    var h, o, d, m := HAll(n), GroverOracle(target), Diffuser(n), MeasureAll(n);
    var p1 := h + o;
    var p2 := p1 + [Barrier];
    var p3 := p2 + d;
    var p4 := p3 + [Barrier];
    assert GroverAlgorithm(n, target) == p4 + m;
    CountAppend(h, o, p);
    CountAppend(p1, [Barrier], p);
    CountAppend(p2, d, p);
    CountAppend(p3, [Barrier], p);
    CountAppend(p4, m, p);
  }

  /** Every qubit is measured, into the classical bit of its own index, and
      nothing but the final n gates is a measurement. */
  lemma GroverMeasurement(n: nat, target: string)
    ensures var r := GroverAlgorithm(n, target);
      && (forall q, c :: Measure(q, c) in r <==> 0 <= q < n && c == q)
      && (forall k :: 0 <= k < |r| && r[k].Measure? ==> k >= |r| - n)
  {
    var r := GroverAlgorithm(n, target);
    var b := HAll(n) + GroverOracle(target) + [Barrier] + Diffuser(n) + [Barrier];
    assert r == b + MeasureAll(n);
    PrefixMeasuresNothing(n, target);
    forall k | 0 <= k < |r|
      ensures r[k].Measure? ==> k >= |b| && r[k] == Measure(k - |b|, k - |b|)
    {
      if k < |b| {
        assert r[k] == b[k];
      } else {
        assert r[k] == MeasureAll(n)[k - |b|];
      }
    }
    forall q | 0 <= q < n ensures Measure(q, q) in r {
      assert r[|b| + q] == MeasureAll(n)[q];
    }
  }

  /** No gate of the list is a measurement. */
  predicate MeasuresNothing(c: Circuit) {
    forall k :: 0 <= k < |c| ==> !c[k].Measure?
  }

  lemma MeasuresNothingAppend(a: Circuit, b: Circuit)
    requires MeasuresNothing(a) && MeasuresNothing(b)
    ensures MeasuresNothing(a + b)
  {
    forall k | 0 <= k < |a + b| ensures !(a + b)[k].Measure? {
      if k >= |a| {
        assert (a + b)[k] == b[k - |a|];
      }
    }
  }

  /** Nothing before the measurement stage is a measurement. */
  lemma PrefixMeasuresNothing(n: nat, target: string)
    ensures var b := HAll(n) + GroverOracle(target) + [Barrier] + Diffuser(n) + [Barrier];
      forall k :: 0 <= k < |b| ==> !b[k].Measure?
  {
    var h, o, d := HAll(n), GroverOracle(target), Diffuser(n);
    assert MeasuresNothing(o) by { OracleUnitary(target); }
    assert MeasuresNothing(d) by { DiffuserUnitary(n); }
    assert MeasuresNothing(h) && MeasuresNothing([Barrier]);
    MeasuresNothingAppend(h, o);
    MeasuresNothingAppend(h + o, [Barrier]);
    MeasuresNothingAppend(h + o + [Barrier], d);
    MeasuresNothingAppend(h + o + [Barrier] + d, [Barrier]);
    assert MeasuresNothing(h + o + [Barrier] + d + [Barrier]);
  }

  /** The circuit fits its n-qubit, n-bit register exactly when the target
      has between 1 and n characters. A shorter target gives an oracle on
      the first len(target) qubits only. An empty target names qubit -1,
      and a longer one names qubit len(target)-1 >= n, in the oracle's H
      gate. */
  lemma GroverWellFormed(n: nat, target: string)
    ensures CircuitWellFormed(GroverAlgorithm(n, target), n) <==> 1 <= |target| <= n
    ensures 1 <= |target| ==> CircuitWellFormed(GroverOracle(target), |target|)
  {
    var h, o, d, m := HAll(n), GroverOracle(target), Diffuser(n), MeasureAll(n);
    var r := GroverAlgorithm(n, target);
    OracleWellFormed(target);
    if 1 <= |target| <= n {
      WellFormedWiden(o, |target|, n);
      DiffuserWellFormed(n);
      HAllContents(n);
      MeasureAllContents(n);
      assert CircuitWellFormed([Barrier], n);
      WellFormedAppend(h, o, n);
      WellFormedAppend(h + o, [Barrier], n);
      WellFormedAppend(h + o + [Barrier], d, n);
      WellFormedAppend(h + o + [Barrier] + d, [Barrier], n);
      WellFormedAppend(h + o + [Barrier] + d + [Barrier], m, n);
    } else {
      var z := ZeroCount(target);
      assert o[z] == H(|target| - 1) by { OracleLayout(target); }
      assert r[n + z] == o[z] by { StagesAt(h, o, d, m); }
      assert !WellFormed(r[n + z], n);
    }
  }
}
