/**
 Basis-state semantics of the classical part of a circuit. A basis state of
 n qubits is a length-n bit string in which entry i is the value of qubit i,
 the same convention the oracle uses when it reads `target[i]` for qubit i.
 X, multi-controlled X and barriers map basis states to basis states; H does
 not, and has no meaning here.
 */
module Basis {
  import opened Gates

  type Bits = seq<bool>

  function Ones(n: nat): Bits {
    seq(n, _ => true)
  }

  function Zeros(n: nat): Bits {
    seq(n, _ => false)
  }

  /** Every bit inverted. */
  function Not(s: Bits): Bits {
    seq(|s|, i requires 0 <= i < |s| => !s[i])
  }

  /** The target string consists of '0' and '1' only. */
  predicate IsBinary(t: string) {
    forall i :: 0 <= i < |t| ==> t[i] == '0' || t[i] == '1'
  }

  /** The basis state a target string names: qubit i is set unless
      `t[i]` is the character '0' (the builders test for '0' only). */
  function Marked(t: string): Bits {
    seq(|t|, i requires 0 <= i < |t| => t[i] != '0')
  }

  /** A basis state spelled as a string, one '0' or '1' per qubit, qubit 0
      first (the target's order, not the qubit-(n-1)-first order of the
      simulator's labels and count keys). */
  function Spell(s: Bits): (t: string)
    ensures IsBinary(t)
  {
    seq(|s|, i requires 0 <= i < |s| => if s[i] then '1' else '0')
  }

  /** Spellings and binary target strings are in one-to-one correspondence. */
  lemma SpellRoundTrip(s: Bits, t: string)
    ensures Marked(Spell(s)) == s
    ensures IsBinary(t) ==> Spell(Marked(t)) == t
  {
  }

  /** A gate with a basis-state meaning that fits an n-qubit register. */
  predicate Classical(g: Gate, n: nat) {
    (g.X? || g.MCX? || g.Barrier?) && WellFormed(g, n)
  }

  predicate AllClassical(c: Circuit, n: nat) {
    forall i :: 0 <= i < |c| ==> Classical(c[i], n)
  }

  /** All control qubits are set. */
  predicate ControlsSet(cs: seq<int>, s: Bits)
    requires forall i :: 0 <= i < |cs| ==> 0 <= cs[i] < |s|
  {
    forall i :: 0 <= i < |cs| ==> s[cs[i]]
  }

  function Step(g: Gate, s: Bits): (r: Bits)
    requires Classical(g, |s|)
    ensures |r| == |s|
  {
    match g
    case X(q) => s[q := !s[q]]
    case MCX(cs, t) => if ControlsSet(cs, s) then s[t := !s[t]] else s
    case Barrier => s
  }

  /** The basis state reached by applying the gates of `c` in order. */
  function Run(c: Circuit, s: Bits): (r: Bits)
    requires AllClassical(c, |s|)
    ensures |r| == |s|
    decreases |c|
  {
    if |c| == 0 then s else Run(c[1..], Step(c[0], s))
  }

  /** Running two lists back to back is running their concatenation. */
  lemma {:induction false} RunAppend(a: Circuit, b: Circuit, s: Bits)
    requires AllClassical(a, |s|) && AllClassical(b, |s|)
    ensures AllClassical(a + b, |s|)
    ensures Run(a + b, s) == Run(b, Run(a, s))
    decreases |a|
  {
    if |a| == 0 {
      assert a + b == b;
    } else {
      assert (a + b)[1..] == a[1..] + b;
      RunAppend(a[1..], b, Step(a[0], s));
    }
  }

  /** A multi-controlled X whose controls are qubits 0..n-2 and whose target
      is qubit n-1 changes a basis state exactly when its controls are all
      set; together with the target bit, that condition singles out the
      all-ones state, the one whose sign the H-MCX-H block flips. */
  lemma ControlledFlipFiresOnlyOnOnes(s: Bits)
    requires |s| >= 1
    ensures ControlsSet(Range(0, |s| - 1), s) && s[|s| - 1] <==> s == Ones(|s|)
    ensures Step(MCX(Range(0, |s| - 1), |s| - 1), s) != s <==> ControlsSet(Range(0, |s| - 1), s)
  {
    var n := |s|;
    if ControlsSet(Range(0, n - 1), s) && s[n - 1] {
      AllSetFromControls(s);
    }
    if s == Ones(n) {
      ControlsSetOnOnes(n);
    }
    ControlledFlipChanges(s);
  }

  lemma ControlsSetOnOnes(n: nat)
    requires n >= 1
    ensures ControlsSet(Range(0, n - 1), Ones(n))
  {
    var cs := Range(0, n - 1);
    forall i | 0 <= i < |cs| ensures Ones(n)[cs[i]] {
      assert cs[i] == i;
    }
  }

  lemma ControlledFlipChanges(s: Bits)
    requires |s| >= 1
    ensures Step(MCX(Range(0, |s| - 1), |s| - 1), s) != s <==> ControlsSet(Range(0, |s| - 1), s)
  {
    var n := |s|;
    var cs := Range(0, n - 1);
    PhaseMcxClassical(n);
    var r := Step(MCX(cs, n - 1), s);
    if ControlsSet(cs, s) {
      assert r == s[n - 1 := !s[n - 1]];
      assert r[n - 1] != s[n - 1];
    } else {
      assert r == s;
    }
  }

  /** The phase block's multi-controlled X fits a register of n >= 1 qubits. */
  lemma PhaseMcxClassical(n: nat)
    requires n >= 1
    ensures Classical(MCX(Range(0, n - 1), n - 1), n)
  {
    var cs := Range(0, n - 1);
    assert forall i :: 0 <= i < |cs| ==> cs[i] == i;
  }

  lemma AllSetFromControls(s: Bits)
    requires |s| >= 1
    requires ControlsSet(Range(0, |s| - 1), s) && s[|s| - 1]
    ensures s == Ones(|s|)
  {
    var cs := Range(0, |s| - 1);
    forall i | 0 <= i < |s| ensures s[i] {
      if i < |s| - 1 {
        assert cs[i] == i;
      }
    }
  }

  /** Inverting every bit maps all-zeros to all-ones and back, and is its
      own inverse. */
  lemma NotInvolution(s: Bits)
    ensures Not(Not(s)) == s
    ensures Not(Zeros(|s|)) == Ones(|s|) && Not(Ones(|s|)) == Zeros(|s|)
    ensures Not(s) == Ones(|s|) <==> s == Zeros(|s|)
  {
    if Not(s) == Ones(|s|) {
      assert forall i :: 0 <= i < |s| ==> !s[i] by {
        forall i | 0 <= i < |s| ensures !s[i] { assert Not(s)[i]; }
      }
    }
  }
}
