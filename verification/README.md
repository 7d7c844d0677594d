# Verification of the MQSS pass collection

This project models four connected parts of the compiler and proves properties of them in Dafny.

1. **The rewriting engine.**  Pattern passes scan a mutable block of quake operations backwards for the
   last operation on a qubit and then insert and erase operations while the block is being walked.
   `Kernels` holds the block as a class with the callbacks and the walk as methods; `Passes` says what a
   callback and a whole walk amount to; `Firing` states pass by pass which gates react and what is left;
   `Soundness`, `Guards`, `Progress` and `Decompositions` prove what that does to circuits.  `Angles` and
   `AngleMeaning` do the same for the two rotation passes.  `Unitary` shows that every gate can be undone.
2. **The dependency graph.**  `Dag` builds it with a map from qubits to their last vertex; `DagLinks` says
   which vertices, edges and paths it has; `DagOrder` proves that its topological orders are the circuit;
   `OrderExact` says exactly which orders are.
3. **The OpenQASM lowering.**  `GateCalls` is the gate table; `References` says independently what each
   gate takes and does; `Phases`, `Products`, `Macros`, `Composites` and `Lowering` connect the two;
   `Builder` appends the operations and says what the module then does; `Measurements` covers the emission
   of measurements.
4. **The circuit drawing.**  `Tikz` fills the grid of cells; `DrawingMeaning` says how far it fixes the circuit.

## Meaning of a circuit

A basis state is the finite set of qubits that read 1, so every statement covers registers of every
size.  A state is a function from basis states to complex amplitudes over exact reals.  A gate is a 2x2
matrix under controls, or an exchange of two qubits under controls (`Blocks`, `Gates`).
`Means(tr, w, xs, ys)` says that on every state circuit `xs` has the effect of `ys` times the number `w`.
Dafny has no trigonometry: `Trig` carries cosine, sine and pi, and `Lawful` lists the only laws used
(both addition theorems, the unit circle, the values at 0 and pi/2, and pi > 0).

## What the code demands of its callers

- One qubit register: the scans compare the index inside a register only
  (lib/Support/CodeGen/Quake/QuakeOperations.cpp:57-65).
- No measurement or reset stands between the gates of a block, because the scans only see gates
  (lib/Support/CodeGen/Quake/QuakeOperations.cpp:163).
- Rotation parameters are floating-point constants.  `extractDoubleArgumentValue` returns -1.0 for anything
  else (lib/Support/CodeGen/Quake/QuakeOperations.cpp:48-53), and normalising would then write 2 pi - 1
  (lib/Passes/Transforms/NormalizeArgAngle.cpp:57-64).
- The operands of one operation are different qubits; the type `Gate` says so.
- A match looks at one wire only.  `Guarded` is the condition that the other wires need, `Guards` proves
  that it is exact, and passes that need no guard are listed in `OneWire`.

## Reading of the code

- MLIR's walk saves the successor of an operation before calling back.  The walk is therefore a fold over
  the original operations, and operations created behind the visited one are not visited.
- A failed cast is dereferenced at include/Support/Transforms/SwitchOperations.hpp:79-81 and
  lib/Passes/Transforms/HXHToZ.cpp:69-71.  The model takes the intended reading: no match, no change.
- lib/Passes/Transforms/CancellationDoubleGate.cpp:59-77 goes on testing an operation after erasing it.
  The model stops at the first pattern that fires.
- The gate table captures its arguments by reference in a static table
  (lib/Interfaces/GatesMap.cpp:59).  The model builds the table afresh for each call; the second `z`
  entry is never reached, because the map keeps the first one.
- Two comments in the gate table describe other operations than the code creates: `rzz` is written with
  `rz` and created with `r1` (lines 516-527), and `ecr` is written as one `rz(pi/2)` and created as two
  `rzx` around an `rx(pi)` (lines 568-602).  The model follows the code.
- Vertex keys of the graph are strings built from qubit and operation numbers; the model uses a datatype
  with the same equalities.

## Model

| member | source | states |
|---|---|---|
| `Scans.PrevOn` | lib/Support/CodeGen/Quake/QuakeOperations.cpp:156-183 | the backward scan returns the greatest earlier position that touches the qubit, with nothing after it touching the qubit; -1 exactly when nothing touches it |
| `Scans.NextOn` | lib/Support/CodeGen/Quake/QuakeOperations.cpp:187-214 | the forward scan returns the least later position that touches the qubit, with nothing before it touching the qubit |
| `Scans.ScansDual` | lib/Support/CodeGen/Quake/QuakeOperations.cpp:156-214 | on two operations of the same qubit, the forward scan from the first finds the second exactly when the backward scan from the second finds the first |
| `Kernels.Kernel.PreviousOperationOnTarget` | lib/Support/CodeGen/Quake/QuakeOperations.cpp:156-183 | the loop over previous nodes computes the backward scan of the current block |
| `Kernels.Kernel.NextOperationOnTarget` | lib/Support/CodeGen/Quake/QuakeOperations.cpp:187-214 | the loop over next nodes computes the forward scan of the current block |
| `Kernels.Kernel.PatternCancellation` | include/Support/Transforms/CancellationOperations.hpp:69-136 | erases both gates from the block exactly when kind, operand counts and both sorted operand lists agree with what the scan of the first target finds, and reports whether it did; the rest of the block stays |
| `Kernels.Kernel.CommuteOperation` | include/Support/Transforms/CommutateOperations.hpp:69-120 | afterwards the block is the visited prefix without the earlier gate, then the visited gate, then the earlier gate, then the untouched rest; nothing changes when the tests fail |
| `Kernels.Kernel.CommuteCNotZ` | lib/Passes/Transforms/CommuteCxZ.cpp:47-101 | the same for a CX whose control carries the visited Z |
| `Kernels.Kernel.CommuteZCNot` | lib/Passes/Transforms/CommuteZCx.cpp:47-100 | the same for a Z that the visited CX is controlled by |
| `Kernels.Kernel.PatternSwitch` | include/Support/Transforms/SwitchOperations.hpp:66-103 | the matched pair is replaced, behind the visited gate, by the two gates of the exchanged kinds on the same operands |
| `Kernels.Kernel.SwitchPauliHOperation` | lib/Passes/Transforms/SwitchPauliH.cpp:50-107 | the three branches leave the block that Visit names: the Pauli found in front of an H is erased and its conjugate stands behind the H; PauliMoves and PauliStays say which Paulis and which conjugates |
| `Kernels.Kernel.ReplaceSandwich` | lib/Passes/Transforms/HXHToZ.cpp:46-93 | H K H, found by two scans, is replaced by one gate at the end; any gate may stand in between on other qubits |
| `Kernels.Kernel.ReplaceSAndZ` | lib/Passes/Decompositions/SAdjToS.cpp:46-83 | an S or S-adjoint followed by Z on its qubit is replaced by the opposite S |
| `Kernels.Kernel.CxToHCzHPattern` | lib/Passes/Decompositions/CxToHCzH.cpp:45-66 | the three created gates stand in place of the CX |
| `Kernels.Kernel.ReplaceCzToHCxH` | lib/Passes/Decompositions/CzToHCxH.cpp:46-67 | the three created gates stand in place of the CZ |
| `Kernels.Kernel.ReverseCNot` | lib/Passes/Decompositions/ReverseCx.cpp:46-70 | the five created gates stand in place of the CX |
| `Kernels.Kernel.RunPass` | lib/Passes/Transforms/CancellationDoubleGate.cpp:58-79 | the walk, which saves the successor before each callback, leaves exactly the prefix fold Walk of the original block; created gates are never visited |
| `Firing.WalkRuns` | lib/Passes/Transforms/CancellationDoubleGate.cpp:58-79 | the walk of a block is a run of callbacks from the empty block, exactly one per original gate and in their order |
| `Firing.VisitExactly` | include/Support/Transforms/CancellationOperations.hpp:69-136 | for each of the 17 two-gate passes, a callback takes out of the block exactly the gate that the table Reacts names (kinds, control counts, equal operands, adjoint flag) when it is the last one on the scanned wire, and leaves at the place of the visited gate what the table Leaves says; otherwise it changes nothing |
| `Firing.PauliMoves` | lib/Passes/Transforms/SwitchPauliH.cpp:60-105 | an uncontrolled X, Y or Z that the scan of an uncontrolled H finds is taken out, and Z, Y or X with its flag and target follows the H |
| `Firing.PauliStays` | lib/Passes/Transforms/SwitchPauliH.cpp:50-70 | in every other case SwitchPauliH leaves the block as it is |
| `Firing.SandwichVisitExactly` | lib/Passes/Transforms/HXHToZ.cpp:46-93 | HXHToZ and HZHToX fire exactly on three uncontrolled gates H, X (or Z), H that are the last three on their qubit, whatever stands between them on other qubits; they leave one Z (or X) at the place of the last |
| `Firing.DecompositionsExactly` | lib/Passes/Decompositions/ReverseCx.cpp:46-70 | each decomposition replaces every CX, or every CZ, and nothing else, by the three or five gates with control and target traded as the code does |
| `Firing.SignExactly` | lib/Passes/Transforms/SwitchYH.cpp:57-61 | a visit counts as a Y switch exactly when SwitchYH or SwitchHY fires, or SwitchPauliH on a Y |
| `Firing.AllPassesShipped` | lib/Passes/Transforms/CommuteCxRx.cpp:58-63 | the theorems about shipped, switching, moving and unguarded passes cover all the passes of that sort |
| `Soundness.SortDecides` | include/Support/Transforms/CancellationOperations.hpp:94-122 | sorting both operand lists in descending order and comparing them decides whether they hold the same qubits with the same multiplicities |
| `Gates.PassableCommutes` | include/Support/Transforms/CancellationOperations.hpp:79-86 | two gates commute on every state when the second neither targets a control nor touches a target of the first, for every pair of kinds, control counts and adjoint flags, controlled swaps included |
| `Gates.Slide` | include/Support/Transforms/CancellationOperations.hpp:79-86 | frame argument: a gate may slide over any segment that leaves its wires alone in that sense |
| `Unitary.AdjointUndoes` | lib/Interfaces/GatesMap.cpp:119-132 | turning over the adjoint flag inverts every gate of every kind under any controls, in both orders |
| `Unitary.OnlyInside` | include/Support/Transforms/CancellationOperations.hpp:131-135 | replacing a segment of a circuit keeps its meaning up to w if and only if the new segment alone means the old one up to w |
| `Soundness.PairSound` | include/Support/Transforms/CancellationOperations.hpp:69-136 | every two-gate rule, on adjacent gates, keeps the meaning exactly, except that switching a Y with an H costs the factor -1 |
| `Soundness.VisitSound` | lib/Passes/Transforms/CancellationDoubleGate.cpp:58-79 | one guarded callback of any shipped pass keeps the meaning of the visited prefix, up to the sign of a Y switch |
| `Soundness.WalkSound` | lib/Passes/Transforms/CancellationDoubleGate.cpp:58-79 | for each of the 22 shipped pattern passes and every circuit: after a whole guarded walk the circuit means the original one times exactly (-1)^k, k being the number of Y switches |
| `Soundness.UncontrolledGuarded` | include/Support/Transforms/CancellationOperations.hpp:79-83 | a match whose earlier gate has no control satisfies the guard by itself, in every pass |
| `Soundness.OneWireWalkSound` | include/Support/Transforms/SwitchOperations.hpp:66-103 | the same without any guard for every pass whose earlier gate has no control: Rx-CX, X-CX, Z-CX, the six switches, SwitchPauliH, HXH, HZH, S/Z merging and the decompositions |
| `Soundness.NoYSwitches` | lib/Passes/Transforms/SwitchPauliH.cpp:50-107 | no pass outside the switching ones ever pays a sign, so their walks are exact |
| `Soundness.SwitchSound` | include/Support/Transforms/SwitchOperations.hpp:66-103 | a Pauli and an H on one qubit trade places, the Pauli becoming its conjugate: exact for X and Z, -1 for Y, in both directions |
| `Guards.CancelGuardExact` | include/Support/Transforms/CancellationOperations.hpp:79-135 | a controlled pair found by scanning only the first target cancels soundly for every choice of gates on the wires in between, even up to a global factor, if and only if nothing in between targets the control |
| `Guards.CommuteGuardExact` | include/Support/Transforms/CommutateOperations.hpp:79-119 | the same if-and-only-if for moving a CX behind an Rx or X on its target |
| `Guards.CxZGuardExact` | lib/Passes/Transforms/CommuteCxZ.cpp:47-101 | moving a CX behind a Z on its control is sound for every choice of gates in between if and only if nothing in between touches the CX target |
| `Guards.GuardExact` | include/Support/Transforms/CancellationOperations.hpp:79-135 | for every shipped two-gate pass and every visit that finds a partner: the rewrite of the block is sound, up to a global factor, for every choice of gates on the wiring behind the partner if and only if the visit satisfies the guard that WalkSound assumes |
| `Guards.CancellationBreaks` | lib/Passes/Transforms/CancellationDoubleCx.cpp:60-64 | on CX; X on the control; the same CX, the unguarded pass leaves the X alone, which is not the original circuit times any number |
| `Guards.CommutingBreaks` | lib/Passes/Transforms/CommuteCxRx.cpp:58-63 | on CX; X on the control; Rx by any angle, or X, on the target, the two passes move the CX to the end, and the result is not the original circuit times any number |
| `Guards.CxZBreaks` | lib/Passes/Transforms/CommuteCxZ.cpp:47-101 | the same for CX; Z on the target; Z on the control under CommuteCxZ |
| `Progress.EraseStableExact` | include/Support/Transforms/CancellationOperations.hpp:132-135 | a block without cancellable pairs stays so when one gate is erased if and only if the erasure brings no gate together with a gate in front of the erased one that it pairs with |
| `Progress.StableThroughoutExact` | lib/Passes/Transforms/CancellationDoubleGate.cpp:58-79 | for every cancellation pass and every circuit, guarded or not: the block is free of cancellable pairs after each visit of the walk if and only if no erasure of the walk reunites a pair |
| `Progress.CancellationFixpoint` | include/Support/Transforms/CancellationOperations.hpp:79-135 | after one cancellation walk that reunites no pair, no surviving gate forms a pair with what its scan finds |
| `Progress.QuietIffStable` | lib/Passes/Transforms/CancellationDoubleGate.cpp:58-79 | a cancellation walk leaves a block unchanged if and only if the block has no cancellable pair, and never lengthens it |
| `Progress.CancellationIdempotent` | lib/Passes/Transforms/CancellationDoubleGate.cpp:58-79 | a second cancellation walk changes nothing if and only if the first one ends without cancellable pairs, in particular when the first one reunites none |
| `Progress.GuardedFixpoint` | lib/Passes/Transforms/CancellationDoubleGate.cpp:58-79 | a guarded walk ends without cancellable pairs, and a second walk changes nothing |
| `Progress.UnguardedNotStable` | lib/Passes/Transforms/CancellationDoubleGate.cpp:58-79 | the fixpoint can fail: X; CX; X; CX, the X on the control, becomes X; X in one walk and nothing in the next |
| `Progress.RepairedReunion` | lib/Passes/Transforms/CancellationDoubleGate.cpp:58-79 | a reunited pair may be parted again: X; CX; X; CX; X reunites the first two X, and the walk still ends in the one X that has no partner |
| `Progress.EraseKeepsStable` | include/Support/Transforms/CancellationOperations.hpp:132-135 | in particular, erasing a gate that could slide to the end creates no cancellable pair |
| `Progress.WalkLowers` | include/Support/Transforms/CommutateOperations.hpp:106-119 | a walk of a commuting pass or of SwitchPauliH lowers the number of same-wire inverted pairs by exactly the number of rewrites it performs, although a rewrite jumps over unrelated gates |
| `Progress.CommutingPermutes` | include/Support/Transforms/CommutateOperations.hpp:106-119 | commuting passes keep the multiset of gates |
| `Progress.QuietWalk` | include/Support/Transforms/CommutateOperations.hpp:69-120 | a walk changes nothing if and only if it performs no rewrite |
| `Progress.Settled` | lib/Passes/Transforms/CommuteCxRx.cpp:58-63 | repeating such a pass until nothing changes terminates, and ends in a block the pass leaves alone |
| `Progress.SettledStable` | include/Support/Transforms/CommutateOperations.hpp:69-119 | in the block in which repetition ends no gate finds a gate that the pass would exchange it with |
| `Firing.StableExactly` | include/Support/Transforms/CancellationOperations.hpp:69-136 | a block is stable for a two-gate pass if and only if no two of its gates are a pair of the table Reacts with no gate in between on the scanned wire |
| `Firing.SettledExactly` | include/Support/Transforms/CommutateOperations.hpp:69-119 | in the block in which repetition ends there are no such two gates |
| `Firing.PauliSettled` | lib/Passes/Transforms/SwitchPauliH.cpp:60-70 | in the settled block of SwitchPauliH no uncontrolled H finds an uncontrolled X, Y or Z |
| `Progress.Rounds` | lib/Passes/Transforms/CommuteCxRx.cpp:58-63 | the number of walks that change something is at most the number of inverted pairs of the block |
| `Progress.RoundsSettle` | lib/Passes/Transforms/CommuteCxRx.cpp:58-63 | that many walks give the settled block, and each of them changes the block it is given |
| `Firing.PairExactly` | include/Support/Transforms/CommutateOperations.hpp:69-104 | two gates count as inverted exactly when they are a pair of the table Reacts and the earlier one is on the scanned wire |
| `Firing.RoundsBound` | lib/Passes/Transforms/CommuteCxRx.cpp:58-63 | on n gates at most n(n-1)/2 walks change something |
| `Progress.SettledMeans` | lib/Passes/Transforms/CommuteCxRx.cpp:58-63 | the block in which guarded repetition ends means the original circuit, times the sign of all Y switches on the way |
| `Progress.OneWireSettledMeans` | lib/Passes/Transforms/SwitchPauliH.cpp:50-107 | the same without any guard for Rx-CX, X-CX, Z-CX and SwitchPauliH |
| `Progress.SettledPermutes` | include/Support/Transforms/CommutateOperations.hpp:106-119 | settling a commuting pass pays no sign and keeps the multiset of gates |
| `Decompositions.WalkSplits` | lib/Passes/Decompositions/ReverseCx.cpp:46-84 | a decomposition walk treats the two halves of a circuit separately: created gates are not visited, so ReverseCx ends although it creates CX gates |
| `Decompositions.WalkGrows` | lib/Passes/Decompositions/ReverseCx.cpp:57-69 | a decomposition walk lengthens the circuit by exactly 4 (ReverseCx) or 2 (the other two) per matched gate |
| `Decompositions.ComposesToReverse` | lib/Passes/Decompositions/CxToHCzH.cpp:57-65 | on a circuit without CZ, CxToHCzH then CzToHCxH gives the ReverseCx output after exchanging one adjacent pair of H gates on different qubits per CX |
| `Decompositions.RoutesAgree` | lib/Passes/Decompositions/CzToHCxH.cpp:57-66 | the two routes agree, up to any number of such exchanges, if and only if the circuit has no CZ |
| `Decompositions.CzKeepsRoutesApart` | lib/Passes/Decompositions/CzToHCxH.cpp:57-66 | on a CZ alone one route gives H; CX; H and the other the CZ, and no number of exchanges joins them |
| `LocalRules.CxFromReversed` | lib/Passes/Decompositions/ReverseCx.cpp:57-69 | H H CX(reversed) H H is the CX |
| `LocalRules.CxFromCz` | lib/Passes/Decompositions/CxToHCzH.cpp:57-65 | H CZ H, with control and target of the CZ traded as the code does, is the CX |
| `LocalRules.SThenZ` | lib/Passes/Decompositions/SToSAdj.cpp:46-82 | S then Z is S-adjoint and S-adjoint then Z is S |
| `Angles.NormalizeArgAngle` | lib/Passes/Transforms/NormalizeArgAngle.cpp:49-95 | the walk keeps every gate at its place with its kind, flag and operands; an Rx, Ry or Rz gets an angle in [0, 2 pi) that differs by whole turns, and every other gate keeps its parameters |
| `Angles.CancelNullRotations` | lib/Passes/Transforms/CancellationNullRotation.cpp:55-88 | the walk keeps, in their order, exactly the gates that are not an Rx, Ry or Rz by a whole multiple of 2 pi |
| `Angles.NormalRange` | lib/Passes/Transforms/NormalizeArgAngle.cpp:57-79 | a normalised angle lies in [0, 2 pi) and differs from the original by a whole number of turns |
| `Angles.NormalUnique` | lib/Passes/Transforms/NormalizeArgAngle.cpp:57-63 | the normalised angle is the only angle in [0, 2 pi) that differs from the original by a whole number of turns |
| `Angles.NormalizingIdempotent` | lib/Passes/Transforms/NormalizeArgAngle.cpp:49-95 | a second normalising walk over the whole circuit changes nothing |
| `Angles.NormalizedTwice` | lib/Passes/Transforms/NormalizeArgAngle.cpp:57-79 | normalising one gate twice is normalising it once |
| `Angles.FmodZero` | lib/Passes/Transforms/CancellationNullRotation.cpp:47-53 | the truncating fmod test accepts exactly the whole multiples of 2 pi, negative ones included |
| `Angles.NullAfterNormalizing` | lib/Passes/Transforms/CancellationNullRotation.cpp:55-73 | a normalised gate passes the null-rotation test if and only if it is an Rx, Ry or Rz whose original angle is a whole multiple of 2 pi |
| `Angles.DeletesFullTurns` | lib/Passes/Transforms/CancellationNullRotation.cpp:55-73 | run after normalising, null-rotation removal leaves exactly the normalised form of the circuit without the rotations by a whole multiple of 2 pi |
| `Angles.CleanedIdempotent` | lib/Passes/Transforms/CancellationNullRotation.cpp:55-88 | after normalising and deleting, neither a second normalising walk nor both walks together change the circuit |
| `AngleMeaning.NormalizingExact` | lib/Passes/Transforms/NormalizeArgAngle.cpp:57-79 | normalising one gate is sound up to a global factor if and only if the gate is not a controlled rotation that loses an odd number of turns |
| `AngleMeaning.NormalizingSound` | lib/Passes/Transforms/NormalizeArgAngle.cpp:49-80 | a whole circuit without such rotations keeps its meaning times (-1)^k, k counting the rotations that lose an odd number of turns |
| `AngleMeaning.DeletingExact` | lib/Passes/Transforms/CancellationNullRotation.cpp:55-73 | deleting one null rotation is sound up to a global factor if and only if it is not a controlled rotation by an odd number of turns |
| `AngleMeaning.FullTurnBreaks` | lib/Passes/Transforms/NormalizeArgAngle.cpp:57-79 | a controlled Rx by 2 pi is normalised to a controlled Rx by zero and is deleted as null, and neither result is the original gate times any number |
| `AngleMeaning.DeletingAfterNormalizing` | lib/Passes/Transforms/CancellationNullRotation.cpp:55-73 | after normalising, deletion is exact on every circuit, controlled rotations included |
| `AngleMeaning.CleanedSound` | lib/Passes/Transforms/CancellationNullRotation.cpp:55-88 | normalising and then deleting keeps the meaning of the circuit up to that sign |
| `Dag.QuakeDAG.GetOrAddNode` | lib/Support/DAG/QuakeDAG.cpp:110-117 | an existing key gives its vertex and changes nothing; a new key gives a new last vertex under that key |
| `Dag.QuakeDAG.ParseMlir` | lib/Support/DAG/QuakeDAG.cpp:35-87 | the loops build the vertices and edges of the graph definition, whose vertices VerticesExactly and whose edges EdgesExactly state |
| `Dag.HistoryIsLast` | lib/Support/DAG/QuakeDAG.cpp:65-79 | a history that holds the last vertex of each qubit yields exactly the edges of the graph definition |
| `DagLinks.VerticesExactly` | lib/Support/DAG/QuakeDAG.cpp:42-83 | the vertices are the qubits, the gates in program order, each holding its operation, and one measurement |
| `DagLinks.EdgesExactly` | lib/Support/DAG/QuakeDAG.cpp:42-86 | there are as many edges from u to v as qubits that link them: v is a gate on the qubit or the measurement, and u is the last gate on it before v or, without one, the vertex of the qubit |
| `DagLinks.QubitPath` | lib/Support/DAG/QuakeDAG.cpp:65-86 | the vertex of every qubit reaches the measurement by a path through exactly the gates on that qubit, in program order |
| `DagOrder.Acyclic` | lib/Support/DAG/QuakeDAG.cpp:35-87 | every edge goes from an earlier to a later vertex |
| `DagOrder.EdgeCount` | lib/Support/DAG/QuakeDAG.cpp:63-86 | there are exactly as many edges as gate operands plus qubits |
| `DagOrder.SharedQubitPath` | lib/Support/DAG/QuakeDAG.cpp:63-79 | any two gates that share a qubit are joined by a path from the earlier to the later |
| `DagOrder.DependenciesDecide` | lib/Support/DAG/QuakeDAG.cpp:63-79 | any reordering that keeps the order of any two gates one of which targets a wire of the other means the kernel exactly |
| `DagOrder.TopologicalOrderMeans` | lib/Support/DAG/QuakeDAG.cpp:35-87 | for every kernel on any number of qubits, running the operations that the vertices hold in any topological order of the graph means the kernel exactly |
| `DagOrder.ProgramOrderTopological` | lib/Support/DAG/QuakeDAG.cpp:35-87 | the order in which vertices were added is topological and gives the kernel back |
| `OrderExact.OrderExactly` | lib/Support/DAG/QuakeDAG.cpp:63-79 | an order of one-target gates means the kernel, up to a global factor, for every choice of gates on its wiring if and only if it keeps the order of any two gates one of which targets a wire of the other |
| `OrderExact.GraphOrdersMore` | lib/Support/DAG/QuakeDAG.cpp:65-79 | the graph orders more than that: two CX from one control may change places, and no topological order of their graph lets them |
| `Builder.QuakeBuilder.InsertGate` | lib/Interfaces/QASMToQuake.cpp:201-309 | succeeds exactly on a supported gate with the angles and operands that the standard library gives it; then the module does what it did before, followed by the gate the call names on its operands, times exp(i CallPhase); on failure nothing is appended |
| `Builder.QuakeBuilder.Translate` | lib/Passes/CodeGen/QASM3ToQuake.cpp:117-121 | the statement loop succeeds exactly when every call names a supported gate with the angles and operands of the standard library; then the module does what it did before, followed by all named gates in order, times exp(i x), x being the sum of the phases of the calls |
| `Phases.EulerAngles` | lib/Interfaces/GatesMap.cpp:70-85 | Rz(phi) Ry(theta) Rz(lambda) is U(theta, phi, lambda) times exp(-i(phi+lambda)/2) |
| `Phases.BuiltinIsU3` | lib/Interfaces/GatesMap.cpp:70-85 | the built-in U of the OpenQASM 3 specification, section "Gates", is the half-angle matrix times exp(i theta/2) |
| `Macros.EulerMeans` | lib/Interfaces/GatesMap.cpp:310-350 | the three rotations of U, u and u2, as a circuit, are the named gate up to that phase |
| `Macros.CpMeans` | lib/Interfaces/GatesMap.cpp:223-258 | the five operations of cp and cphase are the controlled phase gate times exp(-i angle/4), for every angle and register |
| `Macros.RzzMeans` | lib/Interfaces/GatesMap.cpp:514-530 | the operations of rzz, with its R1, are exp(-i angle/2 ZZ) times exp(i angle/2) |
| `Macros.RzxMeans` | lib/Interfaces/GatesMap.cpp:531-551 | the operations of rzx are exp(-i angle/2 ZX) exactly |
| `Composites.RxxMeans` | lib/Interfaces/GatesMap.cpp:443-493 | the nine operations of rxx are H on b, a rotation of a about X signed by b, H on b, exactly |
| `Composites.RxxAmplitude` | lib/Interfaces/GatesMap.cpp:443-493 | that reference sends every amplitude to cos(angle/2) times itself minus i sin(angle/2) times the amplitude with both qubits flipped |
| `Composites.EcrMeans` | lib/Interfaces/GatesMap.cpp:566-602 | the eleven operations of ecr are RZX(pi/2) followed by X, times -i |
| `Composites.RccxMeans` | lib/Interfaces/GatesMap.cpp:351-382 | the thirteen operations of rccx are the simplified Toffoli gate times -1 |
| `Composites.RccxIsToffoli` | lib/Interfaces/GatesMap.cpp:351-382 | the simplified Toffoli gate is the Toffoli gate times a unit phase that depends only on the basis state |
| `Lowering.SingleMatrix` | lib/Interfaces/GatesMap.cpp:87-222 | the operation created by each one-operation entry has the matrix its name stands for, times exp(i GlobalPhase) |
| `Lowering.SplitAtControls` | lib/Interfaces/QASMToQuake.cpp:49-82 | the implicit controls of an accepted call are the leading operands that the standard library makes controls |
| `Lowering.AcceptedExactly` | lib/Interfaces/GatesMap.cpp:46-615 | the table accepts a call exactly when its gate is supported and has the angles and operands of the standard library, written down name by name apart from the table; id takes any, and rccx ignores operands past the third |
| `Lowering.EmittedMeans` | lib/Interfaces/GatesMap.cpp:46-615 | for every supported name, parameters and operands: what is emitted is the reference gate times exp(i GlobalPhase) |
| `Lowering.ProgramPhases` | lib/Passes/CodeGen/QASM3ToQuake.cpp:117-121 | that factor is exp(i x), x being the sum of the phases of the calls |
| `Lowering.ProgramMeans` | lib/Passes/CodeGen/QASM3ToQuake.cpp:117-121 | translating any list of supported calls gives an operation sequence that is the composition of the named gates, in order, times one unit factor |
| `Measurements.EmplaceKeeps` | lib/Interfaces/QASMToQuake.cpp:366-371 | emplacing keeps the map ordered and adds the pair exactly when its key is new |
| `Measurements.EntriesAreFirst` | lib/Interfaces/QASMToQuake.cpp:317-371 | the map holds, for each classical index, the first qubit measured into it, whatever the register name |
| `Measurements.InsertMeasurements` | lib/Interfaces/QASMToQuake.cpp:313-390 | the two loops emit one measurement per map entry, in the order of the classical indices |
| `Measurements.GetNumberOfClassicalBits` | lib/Support/CodeGen/Quake/QuakeOperations.cpp:82-106 | the walk over the measurements, with its inner loop over registers, computes the recounted bits |
| `Measurements.RecountedPositions` | lib/Support/CodeGen/Quake/QuakeOperations.cpp:82-106 | recounting single-qubit measurements returns their number and maps each qubit to the position of its last measurement |
| `Measurements.RecountedLast` | lib/Support/CodeGen/Quake/QuakeOperations.cpp:82-106 | for any mix of qubit and register measurements the map holds exactly the covered qubits, each with the bit of the last operation that covers it |
| `Measurements.RegisterBits` | lib/Support/CodeGen/Quake/QuakeOperations.cpp:94-101 | a register measurement gives its qubits the bits it takes, in order, if and only if it is the first to take any, or takes none |
| `Measurements.RoundTrip` | lib/Interfaces/QASMToQuake.cpp:317-389 | emitting and recounting returns the number of classical indices in use, and gives every measurement statement its own index back if and only if the indices have no gap and two statements agree on the index exactly when they agree on the qubit |
| `Measurements.LostIndices` | lib/Interfaces/QASMToQuake.cpp:317-389 | a qubit measured into index 1 alone is read back with bit 0, and one measured into 0 and then 1 with bit 1 |
| `Tikz.Grid.Dump` | lib/Passes/CodeGen/QuakeToTikz.cpp:48-150 | one operation appends to each row the cell it must show there: a wire, a meter, the way from a control to its target, the ends of a swap, or a box with the kind, the adjoint flag and one rounded label per parameter |
| `Tikz.Draw` | lib/Passes/CodeGen/QuakeToTikz.cpp:179-183 | the whole drawing has one row per qubit, each the head followed by the cells of all operations |
| `Tikz.CompleteIff` | lib/Passes/CodeGen/QuakeToTikz.cpp:109-116 | all rows have one cell per drawn operation plus the head if and only if no swap has controls |
| `Tikz.CellsExactly` | lib/Passes/CodeGen/QuakeToTikz.cpp:94-150 | without controlled swaps, column k+1 of every row shows that of operation k |
| `Tikz.RowGrows` | lib/Passes/CodeGen/QuakeToTikz.cpp:94-150 | with controlled swaps too, every operation appends one such cell to each row, and none to the rows of a swap control |
| `Tikz.ControlledSwapShort` | lib/Passes/CodeGen/QuakeToTikz.cpp:109-116 | a swap under one control: the control row keeps its head only, the two target rows get their cells |
| `Tikz.WireIff` | lib/Passes/CodeGen/QuakeToTikz.cpp:94-104 | without controlled swaps, a cell is a plain wire exactly when the operation does not touch the qubit |
| `Tikz.LinksMeet` | lib/Passes/CodeGen/QuakeToTikz.cpp:108-150 | without controlled swaps, a control in row r with offset d points at a gate box in row r+d of the same column, and a swap at its partner |
| `Tikz.DrawingDetermines` | lib/Passes/CodeGen/QuakeToTikz.cpp:48-150 | two drawings without controlled swaps have the same rows if and only if they show, column by column, the same kinds, adjoint flags, targets, control sets and measured qubits, and parameters that print alike with two decimals |
| `Tikz.Fixed2Exact` | lib/Passes/CodeGen/QuakeToTikz.cpp:129-136 | a label is printed for a parameter if and only if it has its sign and lies within half a hundredth of it, with an even last digit at a tie; no whole number of hundredths is nearer |
| `Tikz.Grid.PrintParameters` | lib/Passes/CodeGen/QuakeToTikz.cpp:129-136 | the loop gives one label per parameter, in order, and each label rounds its parameter in that sense |
| `DrawingMeaning.DrawingMeans` | lib/Passes/CodeGen/QuakeToTikz.cpp:117-150 | two circuits with the same drawing and the same parameters do the same to every state |
| `DrawingMeaning.DrawingFixesMeaning` | lib/Passes/CodeGen/QuakeToTikz.cpp:117-150 | all circuits with a drawing do the same to every state, even up to a global factor, if and only if no drawn gate has a parameter |
| `DrawingMeaning.DrawnAlike` | lib/Passes/CodeGen/QuakeToTikz.cpp:129-136 | every gate with a parameter has a twin that is drawn alike and is not the gate times any number |
| `DrawingMeaning.RoundingHides` | lib/Passes/CodeGen/QuakeToTikz.cpp:129-136 | an Rx by some angle below 0.005 is drawn as the Rx by zero and is not it times any number |

## Left out

- CancelGuardExact: the gates between the pair have one target.  With swaps in between the guard still suffices (WalkSound covers them) but is no longer necessary: a swap of the control followed by the same swap undoes itself, and no other gate has its wiring.
- CommuteGuardExact: gates with one target in between, for the same reason.
- CxZGuardExact: gates with one target in between, for the same reason.
- GuardExact: gates with one target behind the partner, for the same reason.
- OrderExactly: gates with one target.  Two equal swaps may change places although each targets the wires of the other, and no other gate has their wiring; DependenciesDecide covers swaps in its direction.
- CancellationFixpoint: stated one way for the end of the walk, because a later visit may part a reunited pair again (RepairedReunion gives the input); StableThroughoutExact is the condition for every visit.
- NormalizingSound: stated one way for whole circuits; the exact condition is proved gate by gate, because two lost signs in one circuit can cancel.
- CleanedSound: one way for the same reason.
- GetNumberOfClassicalBits: the second overload, which counts without rebuilding the map, adds nothing.
- RoundTrip: one qubit register, because only the index inside a register reaches the map.
- Floating point: angles and amplitudes are exact reals, without the cast to `float` at lib/Support/CodeGen/Quake/QuakeOperations.cpp:51.
- Parameter expressions: gate calls carry evaluated parameters; evaluateExpression folds literals, pi, negation and the four operations.
- QASM `ctrl` and other modifiers: their control count is assigned to a shadowing variable and lost (lib/Interfaces/QASMToQuake.cpp:240-247), so only calls without modifiers are translated as written.
- Unsupported gates (`gphase`, `ryy`, `iswap`, `iswapdg`, `teleport`, `xx_plus_yy`, `xx_minus_yy`): their entries assert; the model only says that such a call is not accepted.
- `rccx` with fewer than three operands reads past its operand list; the model does not accept such a call.
- Adjoint flags on macros: only names that contain "dg" set the flag, and none of them is a macro; what the table would emit for an adjoint macro is modelled but not related to the inverse gate.
- Allocation of registers, and the option to measure every register: the recount of a whole register is covered, the allocation is not.
- TikZ text: a label is the kind, the dagger and the printed parameters as data, so its spelling and the separators between cells are not modelled; reals have no negative zero, which the code would print with a sign.
- QuakeQMap: the mapping is done by an external library.
- QuakeToLinAlg and InlineGatesToArithLinAlg: gate matrices are external functions and the initial vector is all zeros, so there is no meaning to keep.
- Pass registration, pipelines, the module driver, the QASM parser, file access and printing: no logic of the passes themselves.
