# Grover circuit construction, modelled in Dafny

This project models the gate-list construction of a small Grover search
script (`grover.py`). Three Python functions do the work. `grover_oracle(qc, target)` marks one basis state. `diffuser(qc, n)` performs inversion about
the mean. `grover_algorithm(n, target)` chains superposition, one oracle, one
diffuser and a measurement. Each function only appends gate instructions to a
circuit object, so each becomes a pure Dafny function returning a `seq` of a
tagged `Gate` datatype: `X(q)`, `H(q)`, `MCX(controls, target)`, `Barrier`,
`Measure(qubit, clbit)`.

On top of the gate lists, the `Basis` module gives the classical gates (X,
multi-controlled X, barrier) their meaning on basis states, written as
`seq<bool>` with entry i the value of qubit i. This is the convention the
oracle uses when it pairs qubit i with `target[i]`. That meaning states why
the oracle marks the target: the X layer carries the target, and no other
string, to all-ones, the one state the H/MCX/H block acts on. A second X
layer then carries it back.

Modules, following the source's structure:

- `Gates` (gates.dfy): the gate datatype, register well-formedness, and sequence helpers (`Range`, `Count`, `Reverse`, `Flatten`).
- `Basis` (basis.dfy): basis strings, the target-to-basis-state reading `Marked`, and `Step`/`Run` semantics of X, MCX and barriers.
- `Oracle` (oracle.dfy): `grover_oracle`.
- `Diffusion` (diffuser.dfy): `diffuser`.
- `Grover` (grover.dfy): `grover_algorithm`.

Conventions fixed once:

- Python broadcasts such as `qc.h(range(n))` become one gate per qubit, in index order.
- `qc.barrier()` becomes one `Barrier`.
- `qc.measure(range(n), range(n))` becomes `Measure(i, i)` for each i.
- Qubit indices are `int`, because the source computes `n - 1`, which is -1 when n = 0.
- A target character other than `'0'` emits no gate, as at grover.py:15 and :21. So the state a target marks has qubit i set exactly when `target[i] != '0'` (`Basis.Marked`). For a `'0'`/`'1'` target, that is the target read as a bit string with qubit 0 first (`Basis.SpellRoundTrip`). The simulator's basis labels and the count keys at grover.py:69 and :88 list qubit n-1 first. So the marked state's count key is the target reversed. For the demo target `'1101101'` the key is `'1011011'`.

## Model

| member | source | states |
|---|---|---|
| Gates.Range | grover.py:18 | `list(range(lo, hi))` has hi-lo entries (none when hi <= lo), entry i is lo+i, and it contains exactly the integers in [lo, hi) |
| Basis.SpellRoundTrip | grover.py:14-15 | spelling a basis state as a '0'/'1' string and reading it back is the identity, and so is spelling the state a '0'/'1' target marks: qubit i corresponds to character i |
| Basis.ControlledFlipFiresOnlyOnOnes | grover.py:17-19 | the multi-controlled X with controls 0..n-2 onto qubit n-1 changes a basis state exactly when all controls are set, and controls plus target all set happens only for the all-ones state |
| Oracle.XLayer | grover.py:14-16 | the X loop emits one gate per '0' character of the target (the multiset count of '0'), each an X on a qubit i < len(target) with target[i] = '0', in strictly increasing qubit order |
| Oracle.XLayerCovers | grover.py:14-16 | every position holding '0' gets its X gate |
| Oracle.PhaseBlockShape | grover.py:17-19 | the block `h(n-1)`, `mcx(list(range(n-1)), n-1)`, `h(n-1)` (also grover.py:29-31) has three gates, the first and last both H(n-1); the middle one is a multi-controlled X onto n-1 whose controls are exactly the qubits 0..n-2; it fits a register of n >= 1 qubits, and for n < 1 it fits no register |
| Oracle.GroverOracle | grover.py:11-22 | the oracle has 2z+3 gates, where z is the number of '0' characters of the target |
| Oracle.OracleLayout | grover.py:13-22 | the closing X layer is the same list as the opening one; between them stand H(n-1), MCX(0..n-2 onto n-1), H(n-1) with n = len(target); every H is on qubit n-1; there is exactly one MCX |
| Oracle.OracleFlipsZeroPositions | grover.py:14-16 | X(i) appears in the oracle if and only if 0 <= i < len(target) and target[i] = '0'; '1' or any other character produces nothing |
| Oracle.OracleUnitary | grover.py:11-22 | the oracle contains only X, H and multi-controlled X gates |
| Oracle.OracleWellFormed | grover.py:13-19 | for a non-empty target every index lies in [0, n), the controls are distinct and exclude the target; for the empty target the oracle names qubit -1, outside any register of size 0 |
| Oracle.XLayerRun | grover.py:14-16 | applied to a basis state, the X layer inverts exactly the bits whose target character is '0' and leaves the others |
| Oracle.XLayerMarksTarget | grover.py:12-16 | the X layer maps a basis string to all-ones if and only if that string is the marked state of the target |
| Oracle.XLayerInvolution | grover.py:14-22 | the closing X layer undoes the opening one on every basis state |
| Oracle.OracleMarksOnlyTarget | grover.py:11-22 | after the opening X layer, a basis state meets the phase block's all-set condition exactly when it is the marked state, and the closing layer restores the starting state |
| Oracle.OracleDependsOnlyOnZeros | grover.py:15 | two targets with '0' in the same places produce the same oracle and mark the same state |
| Diffusion.HAllContents | grover.py:27 | `h(range(n))` (also grover.py:33 and :41) has n gates: H(q) appears exactly for 0 <= q < n, nothing else appears, no two gates share a qubit, and all fit the n-qubit register |
| Diffusion.XAllContents | grover.py:28 | `x(range(n))` (also grover.py:32) has n gates: X(q) appears exactly for 0 <= q < n, nothing else appears, no two gates share a qubit, and all fit the n-qubit register |
| Diffusion.Diffuser | grover.py:25-33 | the diffuser has 4n+3 gates |
| Diffusion.XAllIsZeroTargetLayer | grover.py:28 | X on every qubit is exactly the oracle's X layer for the all-'0' target |
| Diffusion.DiffuserConjugatesOracle | grover.py:25-33 | the diffuser equals H on every qubit, then the oracle for the all-'0' target, then H on every qubit |
| Diffusion.XAllFlipsEverything | grover.py:28 | X on every qubit inverts every bit, maps all-zeros to all-ones and back, and applied twice restores any basis state |
| Diffusion.DiffuserMarksZeros | grover.py:28-30 | after the X-on-every-qubit layer, a basis state meets the phase block's all-set condition exactly when it started as all-zeros |
| Diffusion.DiffuserPalindrome | grover.py:27-33 | the diffuser is the concatenation of the seven layers H-all, X-all, H(n-1), MCX, H(n-1), X-all, H-all; that layer list reads the same backwards; no two gates in one layer share a qubit |
| Diffusion.DiffuserShape | grover.py:29-31 | gates 2n, 2n+1, 2n+2 are H(n-1), MCX(0..n-2 onto n-1), H(n-1), and that MCX is the only one |
| Diffusion.DiffuserUnitary | grover.py:25-33 | the diffuser contains only X, H and multi-controlled X gates |
| Diffusion.DiffuserWellFormed | grover.py:29-31 | for n >= 1 every index lies in [0, n) and the controls are distinct and exclude the target; for n = 0 it names qubit -1 |
| Grover.MeasureAllContents | grover.py:52 | `measure(range(n), range(n))` has n gates: Measure(q, c) appears exactly when 0 <= q < n and c = q, nothing else appears, and all fit the n-qubit, n-bit register |
| Grover.GroverAlgorithm | grover.py:36-53 | for any n and any target, the circuit has 6n + 2z + 8 gates, where z is the number of '0' characters of the target |
| Grover.GroverLayout | grover.py:40-52 | gates appear in the order H(i) for every qubit, the oracle, a barrier, the diffuser, a barrier, then Measure(i, i) for every qubit |
| Grover.GroverCounts | grover.py:43-49 | the circuit holds exactly two barriers and exactly two multi-controlled X gates: one oracle and one diffuser |
| Grover.GroverMeasurement | grover.py:51-52 | Measure(q, c) appears if and only if 0 <= q < n and c = q, and only the last n gates are measurements |
| Grover.PrefixMeasuresNothing | grover.py:40-49 | no gate before the measurement stage is a measurement |
| Grover.GroverWellFormed | grover.py:38-52 | every gate fits the n-qubit, n-bit register if and only if 1 <= len(target) <= n. A shorter target gives an oracle confined to the first len(target) qubits. An empty target names qubit -1. A longer target names qubit len(target)-1 >= n |

## Left out

- Statevector evolution, `ptrace` and `sample_counts` (grover.py:69-70, 79, 88). These run inside the quantum library, whose code is not part of this model. They work on complex floating-point amplitudes, and sampling is random.
- The amplitude-level identity H·MCX·H = multi-controlled Z (the comment at grover.py:18). It needs irrational arithmetic. The oracle's effect is stated at the basis level instead.
- Circuit drawing, Bloch-sphere, state-city and histogram plots, and the matplotlib calls (grover.py:3-8, 63-91). These are display and foreign calls.
- The module-level demo parameters and captions (grover.py:56-61, 90). The caption `'101'` does not match the 7-bit target, but it is a display string.
- Negative qubit indices: the simulator library accepts a Python-style negative index and wraps it, so with an empty target and n >= 1, -1 becomes qubit n-1. `Gates.WellFormed` counts a negative index as outside the register (`Grover.GroverWellFormed`), and the wrapped circuit is not modelled. An index >= n, which the oracle names when len(target) > n, is rejected by the library and outside the register here too.
- Oracle.OracleMarksOnlyTarget: states the basis-level condition under which the phase block acts, not the sign flip of the amplitude.
- Diffusion.DiffuserPalindrome: states the palindrome on layers. At the gate level, `h(range(n))` and `x(range(n))` emit qubits in ascending order, so the reversed gate list differs inside each layer. It differs only by reordering gates that share no qubit.
- Iteration count: the source performs exactly one oracle+diffuser round, and the model follows it. It has no iteration-count parameter.
- Target validation: the source checks neither the characters of the target nor its length. The model does not invent such checks. A non-'0' character simply emits no gate (`Oracle.OracleFlipsZeroPositions`, `Oracle.OracleDependsOnlyOnZeros`).
