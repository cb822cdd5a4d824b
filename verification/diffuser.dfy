/**
 The diffuser of grover.py: H and X on every qubit, the phase block on the
 last qubit, then X and H on every qubit again. It is the oracle for the
 all-zeros target, wrapped in an H layer.
 */
module Diffusion {
  import opened Gates
  import opened Basis
  import opened Oracle

  /** `qc.h(range(n))`: one H per qubit, in index order. */
  function HAll(n: nat): Circuit {
    seq(n, i => H(i))
  }

  /** `qc.x(range(n))`: one X per qubit, in index order. */
  function XAll(n: nat): Circuit {
    seq(n, i => X(i))
  }

  /** The target string naming the all-zeros basis state. */
  function ZeroString(n: nat): string {
    seq(n, _ => '0')
  }

  /** `diffuser(qc, n)`: the gates it appends. */
  function Diffuser(n: nat): (r: Circuit)
    ensures |r| == 4 * n + 3
  {
    HAll(n) + XAll(n) + PhaseBlock(n) + XAll(n) + HAll(n)
  }

  /** The X-on-every-qubit layer is the oracle's X layer for the all-zeros
      target. */
  lemma {:induction false} XAllIsZeroTargetLayer(n: nat)
    ensures XLayer(ZeroString(n)) == XAll(n)
  {
    if n > 0 {
      ZeroLayerStep(n);
      XAllStep(n);
      XAllIsZeroTargetLayer(n - 1);
    }
  }

  lemma ZeroLayerStep(n: nat)
    requires n > 0
    ensures XLayer(ZeroString(n)) == XLayer(ZeroString(n - 1)) + [X(n - 1)]
  {
    var t := ZeroString(n);
    assert t[n - 1] == '0';
    assert t[..n - 1] == ZeroString(n - 1);
  }

  lemma XAllStep(n: nat)
    requires n > 0
    ensures XAll(n) == XAll(n - 1) + [X(n - 1)]
  {
  }

  /** The diffuser is the oracle for the all-zeros target between two H
      layers: the same phase pattern, taken relative to |0...0>. */
  lemma DiffuserConjugatesOracle(n: nat)
    ensures Diffuser(n) == HAll(n) + GroverOracle(ZeroString(n)) + HAll(n)
  {
    var h, x, b := HAll(n), XAll(n), PhaseBlock(n);
    XAllIsZeroTargetLayer(n);
    assert GroverOracle(ZeroString(n)) == x + b + x;
    calc {
      h + (x + b + x) + h;
      h + x + b + x + h;
      Diffuser(n);
    }
  }

  /** The X-on-every-qubit layer inverts every bit: it takes all-zeros to
      all-ones and back, and applied twice it restores any basis state. */
  lemma XAllFlipsEverything(s: Bits)
    ensures AllClassical(XAll(|s|), |s|)
    ensures Run(XAll(|s|), s) == Not(s)
    ensures Run(XAll(|s|), Zeros(|s|)) == Ones(|s|)
    ensures Run(XAll(|s|), Ones(|s|)) == Zeros(|s|)
    ensures Run(XAll(|s|), Run(XAll(|s|), s)) == s
  {
    var n := |s|;
    XAllRun(s);
    XAllRun(Zeros(n));
    XAllRun(Ones(n));
    XAllRun(Not(s));
    NotInvolution(s);
  }

  lemma XAllRun(s: Bits)
    ensures AllClassical(XAll(|s|), |s|)
    ensures Run(XAll(|s|), s) == Not(s)
  {
    var n := |s|;
    XAllIsZeroTargetLayer(n);
    XLayerRun(ZeroString(n), s);
    assert Toggle(ZeroString(n), s) == Not(s);
  }

  /** After the X-on-every-qubit layer, a basis state fires the phase block
      exactly when it started as all-zeros. */
  lemma DiffuserMarksZeros(s: Bits)
    requires |s| >= 1
    ensures AllClassical(XAll(|s|), |s|)
    ensures var u := Run(XAll(|s|), s);
      ControlsSet(Range(0, |s| - 1), u) && u[|s| - 1] <==> s == Zeros(|s|)
  {
    var n := |s|;
    XAllIsZeroTargetLayer(n);
    OracleMarksOnlyTarget(ZeroString(n), s);
    ZeroStringMarksZeros(n);
  }

  lemma ZeroStringMarksZeros(n: nat)
    ensures Marked(ZeroString(n)) == Zeros(n)
  {
  }

  /** The diffuser as its seven layers. */
  function DiffuserLayers(n: nat): seq<Circuit> {
    [HAll(n), XAll(n), [H(n - 1)], [MCX(Range(0, n - 1), n - 1)], [H(n - 1)], XAll(n), HAll(n)]
  }

  /** The diffuser reads the same backwards layer by layer, and within each
      layer no two gates share a qubit, so reversing the order inside a
      layer changes nothing. */
  lemma DiffuserPalindrome(n: nat)
    ensures Flatten(DiffuserLayers(n)) == Diffuser(n)
    ensures Reverse(DiffuserLayers(n)) == DiffuserLayers(n)
    ensures forall k :: 0 <= k < |DiffuserLayers(n)| ==> Parallel(DiffuserLayers(n)[k])
  {
    DiffuserLayersFlatten(n);
    DiffuserLayersMirror(n);
    HAllContents(n);
    XAllContents(n);
  }

  lemma DiffuserLayersFlatten(n: nat)
    ensures Flatten(DiffuserLayers(n)) == Diffuser(n)
  {
    var ls := DiffuserLayers(n);
    assert ls[1..][1..][1..][1..][1..][1..][1..] == [];
    assert Flatten(ls) == HAll(n) + (XAll(n) + ([H(n - 1)] + ([MCX(Range(0, n - 1), n - 1)] + ([H(n - 1)] + (XAll(n) + (HAll(n) + []))))));
  }

  lemma DiffuserLayersMirror(n: nat)
    ensures Reverse(DiffuserLayers(n)) == DiffuserLayers(n)
  {
  }

  /** The H layer holds exactly one H per qubit of the register and
      nothing else; no two of its gates share a qubit. */
  lemma HAllContents(n: nat)
    ensures |HAll(n)| == n
    ensures forall g :: g in HAll(n) <==> g.H? && 0 <= g.q < n
    ensures Parallel(HAll(n)) && CircuitWellFormed(HAll(n), n)
  {
    var h := HAll(n);
    forall q | 0 <= q < n ensures H(q) in h {
      assert h[q] == H(q);
    }
    forall i, j | 0 <= i < j < n ensures Qubits(h[i]) !! Qubits(h[j]) {
      assert Qubits(h[i]) == {i};
    }
  }

  /** The X layer holds exactly one X per qubit of the register and
      nothing else; no two of its gates share a qubit. */
  lemma XAllContents(n: nat)
    ensures |XAll(n)| == n
    ensures forall g :: g in XAll(n) <==> g.X? && 0 <= g.q < n
    ensures Parallel(XAll(n)) && CircuitWellFormed(XAll(n), n)
  {
    var x := XAll(n);
    forall q | 0 <= q < n ensures X(q) in x {
      assert x[q] == X(q);
    }
    forall i, j | 0 <= i < j < n ensures Qubits(x[i]) !! Qubits(x[j]) {
      assert Qubits(x[i]) == {i};
    }
  }

  /** The phase block sits in the middle on the last qubit, and it holds
      the only multi-controlled X of the diffuser. */
  lemma DiffuserShape(n: nat)
    ensures var d := Diffuser(n);
      && d[2 * n] == H(n - 1)
      && d[2 * n + 1] == MCX(Range(0, n - 1), n - 1)
      && d[2 * n + 2] == H(n - 1)
      && Count(d, IsMcx) == 1
  {
    var h, x, b := HAll(n), XAll(n), PhaseBlock(n);
    assert Count(h, IsMcx) == 0 && Count(x, IsMcx) == 0;
    assert Count(b, IsMcx) == 1 by {
      assert b[1..][1..][1..] == [];
    }
    CountAppend(h, x, IsMcx);
    CountAppend(h + x, b, IsMcx);
    CountAppend(h + x + b, x, IsMcx);
    CountAppend(h + x + b + x, h, IsMcx);
  }

  /** The diffuser holds only X, H and multi-controlled X gates. */
  lemma DiffuserUnitary(n: nat)
    ensures AllUnitary(Diffuser(n))
  {
    var d := Diffuser(n);
    forall k | 0 <= k < |d| ensures IsUnitary(d[k]) {
      if 2 * n <= k < 2 * n + 3 {
        assert d[k] == PhaseBlock(n)[k - 2 * n];
      }
    }
  }

  /** For n >= 1 every index the diffuser names lies in the register and
      the controls are distinct from the target; for n = 0 it names qubit
      -1. */
  lemma DiffuserWellFormed(n: nat)
    ensures n >= 1 ==> CircuitWellFormed(Diffuser(n), n)
    ensures n == 0 ==> !CircuitWellFormed(Diffuser(n), 0)
  {
    var d := Diffuser(n);
    if n >= 1 {
      var b := PhaseBlock(n);
      forall k | 0 <= k < |d| ensures WellFormed(d[k], n) {
        if 2 * n <= k < 2 * n + 3 {
          assert d[k] == b[k - 2 * n];
        }
      }
    } else {
      assert d[0] == H(-1);
    }
  }
}
