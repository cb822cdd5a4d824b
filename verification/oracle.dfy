/**
 The phase oracle of grover.py: an X on every qubit whose target character is
 '0', then H, multi-controlled X, H on the last qubit, then the same X layer
 again. The X layer carries the marked basis state to all-ones, the only
 state on which the middle block acts, and carries it back.
 */
module Oracle {
  import opened Gates
  import opened Basis

  /** The number of '0' characters of the target. */
  function ZeroCount(t: string): nat {
    multiset(t)['0']
  }

  /** Every gate of `r` is an X on a qubit whose target character is '0',
      and the qubits strictly increase along the list. */
  predicate FlipsZerosInOrder(t: string, r: Circuit) {
    && (forall k :: 0 <= k < |r| ==> r[k].X? && 0 <= r[k].q < |t| && t[r[k].q] == '0')
    && (forall k, l :: 0 <= k < l < |r| ==> r[k].q < r[l].q)
  }

  /** The gate the loop emits for the character at index i. */
  function FlipAt(t: string, i: nat): Circuit
    requires i < |t|
  {
    if t[i] == '0' then [X(i)] else []
  }

  /** The loop of grover.py that walks the target and appends X(i) for every
      character equal to '0', in index order. */
  function XLayer(t: string): (r: Circuit)
    ensures |r| == ZeroCount(t)
    ensures FlipsZerosInOrder(t, r)
  {
    if |t| == 0 then []
    else
      ZeroCountLast(t);
      ExtendLayer(t, XLayer(t[..|t| - 1]));
      XLayer(t[..|t| - 1]) + FlipAt(t, |t| - 1)
  }

  /** One more loop iteration keeps the emitted list in order and on '0'
      positions only. */
  lemma ExtendLayer(t: string, pre: Circuit)
    requires |t| >= 1
    requires FlipsZerosInOrder(t[..|t| - 1], pre)
    ensures FlipsZerosInOrder(t, pre + FlipAt(t, |t| - 1))
  {
    var k := |t| - 1;
    assert forall i :: 0 <= i < k ==> t[..k][i] == t[i];
  }

  /** Counting '0' characters one character at a time from the end. */
  lemma ZeroCountLast(t: string)
    requires |t| >= 1
    ensures ZeroCount(t) == ZeroCount(t[..|t| - 1]) + (if t[|t| - 1] == '0' then 1 else 0)
  {
    var k := |t| - 1;
    assert t == t[..k] + [t[k]];
    assert multiset(t) == multiset(t[..k]) + multiset{t[k]};
  }

  /** Every '0' position of the target gets its X. */
  lemma {:induction false} XLayerCovers(t: string, i: int)
    requires 0 <= i < |t| && t[i] == '0'
    ensures X(i) in XLayer(t)
    decreases |t|
  {
    var k := |t| - 1;
    if i < k {
      assert t[..k][i] == t[i];
      XLayerCovers(t[..k], i);
    }
  }

  /** H, multi-controlled X over qubits 0..n-2 onto qubit n-1, H: the block
      that, between the two X layers, negates the all-ones state. */
  function PhaseBlock(n: int): Circuit {
    [H(n - 1), MCX(Range(0, n - 1), n - 1), H(n - 1)]
  }

  /** The phase block is symmetric, with both H gates on the last qubit,
      and its multi-controlled X is controlled by every lower qubit. It fits
      a register of n >= 1 qubits and names qubit -1 otherwise. */
  lemma PhaseBlockShape(n: int)
    ensures var b := PhaseBlock(n);
      && |b| == 3 && b[0] == b[2] == H(n - 1)
      && b[1].MCX? && b[1].target == n - 1
      && (forall x :: x in b[1].controls <==> 0 <= x < n - 1)
    ensures n >= 1 ==> CircuitWellFormed(PhaseBlock(n), n)
    ensures n < 1 ==> forall m: nat :: !CircuitWellFormed(PhaseBlock(n), m)
  {
    var b := PhaseBlock(n);
    if n >= 1 {
      forall k | 0 <= k < 3 ensures WellFormed(b[k], n) {
        if k == 1 {
          var cs := Range(0, n - 1);
          assert forall i :: 0 <= i < |cs| ==> cs[i] == i;
        }
      }
    } else {
      forall m: nat ensures !WellFormed(b[0], m) { }
    }
  }

  /** `grover_oracle(qc, target)`: the gates it appends. */
  function GroverOracle(t: string): (r: Circuit)
    ensures |r| == 2 * ZeroCount(t) + 3
  {
    XLayer(t) + PhaseBlock(|t|) + XLayer(t)
  }

  /** The layout of the oracle: an X layer, the phase block on the last
      qubit, then the same X layer again; the only H gates are on the last
      qubit, and there is exactly one multi-controlled X. */
  lemma OracleLayout(t: string)
    ensures var r, z := GroverOracle(t), ZeroCount(t);
      && r[..z] == r[z + 3..]
      && r[z] == H(|t| - 1)
      && r[z + 1] == MCX(Range(0, |t| - 1), |t| - 1)
      && r[z + 2] == H(|t| - 1)
      && (forall k :: 0 <= k < |r| && r[k].H? ==> r[k] == H(|t| - 1))
      && Count(r, IsMcx) == 1
  {
    var layer := XLayer(t);
    var r := GroverOracle(t);
    assert r == layer + PhaseBlock(|t|) + layer;
    assert r[..|layer|] == layer && r[|layer| + 3..] == layer;
    OracleHGates(t);
    OracleMcxCount(t);
  }

  lemma OracleHGates(t: string)
    ensures var r := GroverOracle(t);
      forall k :: 0 <= k < |r| && r[k].H? ==> r[k] == H(|t| - 1)
  {
    var layer := XLayer(t);
    var r := GroverOracle(t);
    assert r == layer + PhaseBlock(|t|) + layer;
    forall k | 0 <= k < |r| ensures r[k].H? ==> r[k] == H(|t| - 1) {
      if k >= |layer| + 3 {
        assert r[k] == layer[k - |layer| - 3];
      } else if k < |layer| {
        assert r[k] == layer[k];
      }
    }
  }

  lemma OracleMcxCount(t: string)
    ensures Count(GroverOracle(t), IsMcx) == 1
  {
    var layer := XLayer(t);
    var block := PhaseBlock(|t|);
    assert Count(layer, IsMcx) == 0;
    assert Count(block, IsMcx) == 1 by {
      assert block[1..][1..][1..] == [];
    }
    CountAppend(layer + block, layer, IsMcx);
    CountAppend(layer, block, IsMcx);
  }

  /** The oracle holds only X, H and multi-controlled X gates. */
  lemma OracleUnitary(t: string)
    ensures AllUnitary(GroverOracle(t))
  {
    var layer := XLayer(t);
    var o := GroverOracle(t);
    assert o == layer + PhaseBlock(|t|) + layer;
    forall k | 0 <= k < |o| ensures IsUnitary(o[k]) {
      if |layer| <= k < |layer| + 3 {
        assert o[k] == PhaseBlock(|t|)[k - |layer|];
      } else if k >= |layer| + 3 {
        assert o[k] == layer[k - |layer| - 3];
      } else {
        assert o[k] == layer[k];
      }
    }
  }

  /** Exactly the qubits whose target character is '0' receive an X; any
      other character, '1' or not, contributes no gate. */
  lemma OracleFlipsZeroPositions(t: string)
    ensures forall i :: X(i) in GroverOracle(t) <==> 0 <= i < |t| && t[i] == '0'
  {
    var layer := XLayer(t);
    var r := GroverOracle(t);
    assert r == layer + PhaseBlock(|t|) + layer;
    forall i | X(i) in r ensures 0 <= i < |t| && t[i] == '0' {
      var k :| 0 <= k < |r| && r[k] == X(i);
      if k >= |layer| + 3 {
        assert r[k] == layer[k - |layer| - 3];
      } else {
        assert r[k] == layer[k];
      }
    }
    forall i | 0 <= i < |t| && t[i] == '0' ensures X(i) in r {
      XLayerCovers(t, i);
    }
  }

  /** For a non-empty target every index the oracle names lies in the
      register of |t| qubits, and the multi-controlled X has distinct
      controls apart from its target; for the empty target it names qubit
      -1, which an empty register rejects. */
  lemma OracleWellFormed(t: string)
    ensures |t| >= 1 ==> CircuitWellFormed(GroverOracle(t), |t|)
    ensures |t| == 0 ==> !CircuitWellFormed(GroverOracle(t), 0)
  {
    var layer := XLayer(t);
    var block := PhaseBlock(|t|);
    var r := GroverOracle(t);
    assert r == layer + block + layer;
    if |t| >= 1 {
      forall k | 0 <= k < |r| ensures WellFormed(r[k], |t|) {
        if |layer| <= k < |layer| + 3 {
          assert r[k] == block[k - |layer|];
        } else if k >= |layer| + 3 {
          assert r[k] == layer[k - |layer| - 3];
        } else {
          assert r[k] == layer[k];
        }
      }
    } else {
      assert r[|layer|] == H(-1);
    }
  }

  /** The bit-flip meaning of an X layer: bit i is inverted exactly when
      `t[i]` is '0'. */
  function Toggle(t: string, s: Bits): Bits {
    seq(|s|, i requires 0 <= i < |s| => if i < |t| && t[i] == '0' then !s[i] else s[i])
  }

  /** The X layer applied to a basis state inverts exactly the bits whose
      target character is '0'. */
  lemma {:induction false} XLayerRun(t: string, s: Bits)
    requires |t| <= |s|
    ensures AllClassical(XLayer(t), |s|)
    ensures Run(XLayer(t), s) == Toggle(t, s)
    decreases |t|
  {
    if |t| == 0 {
      assert Toggle(t, s) == s;
    } else {
      var k := |t| - 1;
      var tail := FlipAt(t, k);
      XLayerRun(t[..k], s);
      assert XLayer(t) == XLayer(t[..k]) + tail;
      RunAppend(XLayer(t[..k]), tail, s);
      ToggleLast(t, s);
    }
  }

  /** One more character of the target toggles one more bit, or none. */
  lemma ToggleLast(t: string, s: Bits)
    requires 1 <= |t| <= |s|
    ensures var k := |t| - 1;
      AllClassical(FlipAt(t, k), |s|) && Run(FlipAt(t, k), Toggle(t[..k], s)) == Toggle(t, s)
  {
    var k := |t| - 1;
    var mid := Toggle(t[..k], s);
    if t[k] == '0' {
      assert Run([X(k)], mid) == Run([], mid[k := !mid[k]]);
      forall i | 0 <= i < |s| ensures mid[k := !mid[k]][i] == Toggle(t, s)[i] {
        if i < k { assert t[..k][i] == t[i]; }
      }
    } else {
      forall i | 0 <= i < |s| ensures mid[i] == Toggle(t, s)[i] {
        if i < k { assert t[..k][i] == t[i]; }
      }
    }
  }

  /** The opening X layer takes the marked state, and no other basis state,
      to all-ones. */
  lemma XLayerMarksTarget(t: string, s: Bits)
    requires |s| == |t|
    ensures AllClassical(XLayer(t), |s|)
    ensures Run(XLayer(t), s) == Ones(|t|) <==> s == Marked(t)
  {
    XLayerRun(t, s);
    if Toggle(t, s) == Ones(|t|) {
      forall i | 0 <= i < |s| ensures s[i] == Marked(t)[i] {
        assert Toggle(t, s)[i];
      }
    }
  }

  /** The closing X layer undoes the opening one on every basis state. */
  lemma XLayerInvolution(t: string, s: Bits)
    requires |t| <= |s|
    ensures AllClassical(XLayer(t), |s|)
    ensures Run(XLayer(t), Run(XLayer(t), s)) == s
  {
    XLayerRun(t, s);
    XLayerRun(t, Toggle(t, s));
  }

  /** The basis-level reason the oracle marks the target: after the opening
      X layer, the state fires the middle block (all controls and the target
      qubit set) exactly when it started as the marked state, and the closing
      X layer then restores the state it started from. */
  lemma OracleMarksOnlyTarget(t: string, s: Bits)
    requires |s| == |t| >= 1
    ensures AllClassical(XLayer(t), |s|)
    ensures var u := Run(XLayer(t), s);
      ControlsSet(Range(0, |t| - 1), u) && u[|t| - 1] <==> s == Marked(t)
    ensures Run(XLayer(t), Run(XLayer(t), s)) == s
  {
    XLayerMarksTarget(t, s);
    ControlledFlipFiresOnlyOnOnes(Run(XLayer(t), s));
    XLayerInvolution(t, s);
  }

  /** Only the '0' characters matter: two targets of one length with '0' in
      the same places give the same oracle, so "1a0" behaves as "110". */
  lemma {:induction false} OracleDependsOnlyOnZeros(t: string, u: string)
    requires |t| == |u|
    requires forall i :: 0 <= i < |t| ==> (t[i] == '0' <==> u[i] == '0')
    ensures GroverOracle(t) == GroverOracle(u)
    ensures Marked(t) == Marked(u)
  {
    XLayerDependsOnlyOnZeros(t, u);
  }

  lemma {:induction false} XLayerDependsOnlyOnZeros(t: string, u: string)
    requires |t| == |u|
    requires forall i :: 0 <= i < |t| ==> (t[i] == '0' <==> u[i] == '0')
    ensures XLayer(t) == XLayer(u)
    decreases |t|
  {
    if |t| > 0 {
      XLayerDependsOnlyOnZeros(t[..|t| - 1], u[..|u| - 1]);
    }
  }
}
