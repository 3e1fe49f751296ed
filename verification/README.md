# A verified model of the simulators' stateful cores

Five stateful components of the quantum runtime, modelled in Dafny in the form the source gives them
(objects with fields, arrays with links, loops) and proved against specifications over values.

1. **Sparse simulator.** `SparseSimulator.h` queues gates lazily over the hash map of `quantum_state.hpp`.
   Labels are sets of 1-bits; a wave maps every label to an exact complex amplitude; the denoted state
   of the object is what running the queue and then the pending H, Rx and Ry would leave. Two states
   are the same up to a complex factor of modulus one.
   Files: `Amplitudes`, `Operators`, `Gates` (algebra); `LazyQueue` (the step functions), `LazyMeaning`,
   `LazySteps`, `McxTrap`, `McxTrapRun` (their meaning); `Occupancy`, `Bounds`, `JointMeasure`, `JointAssert`;
   `Kernels`, `BitsetOrder`, `PauliStrings`, `PauliKernels`, `Separability` (the kernels entry by entry);
   `Weights`, `BornRule` (norms and the chances of outcomes); `Programs` (gates mixed with measurements);
   `Circuits` (what the operators mean in terms of each other); `Flags` (which qubits are flagged);
   `QuantumState`, `SparseSimulator` (the classes).
2. **Qubit manager with restricted reuse.** `ReusePool` is the machine over values and its safety over
   runs; `RestrictedReuse` is the class with all lists in one array (`LinkedLists`), and its runs.
3. **Qubit manager.** `QubitPool` (allocation in three modes) and `Borrowing` (loans) over values;
   `QubitManager` is the class whose array values are links, marks and loan counts; `ManagerRuns` has
   the runs of the class with a stack of operations.
4. **Arrays and ranges.** `QRange` and `QArray`: strided views on reference-counted storage.
5. **Depth counter.** `ComplexTime`, `GateSchedule`, `SortedQubitPool`, `DepthCounter`; its runs in `DepthRuns`,
   and what their times and samples mean in `DepthChains` and `DepthSamples`.

Where the code departs from its documentation the model follows the code. The exact condition is proved,
and an input or a run the code really receives is given:

- the CNOT rewritten under two pending H gates while Ry is pending on the target
  (`McxTrapExact.McxFaithfulIff`, `McxTrapRun.TrapRunIff`);
- the joint measurement of Y on a qubit not flagged as occupied (`JointMeasure.MeasureSoundIff`,
  `JointMeasure.InitialYUnsound`, `BornRule.InitialYMisread`);
- the draw of 0 for an outcome that has no chance, which empties the table (`BornRule.MeasuredUnitIff`,
  `BornRule.JointUnitIff`, `BornRule.EmptiedRun`, `Simulator.EmptiedByZero`);
- adding at the back of a list, with reuse discouraged and a fixed capacity (`RestrictedReuse.BackAddIff`,
  `RestrictedReuse.QubitManagerRestrictedReuse.Perform`, `RestrictedReuse.StaleOverwrites`, `RestrictedReuse.StaleRun`);
- the failed batch that keeps its loans (`QubitManagement.FailedBorrowIff`, `ManagerRuns.FailedBorrowRun`);
- the single borrow that falls back to an allocation (`Borrowing.SingleBorrowIff`, `ManagerRuns.SingleBorrowRun`);
- an array set to itself through a range (`QArrays.OwnRangeIff`, `QArrays.ReverseOntoItself`);
- a refused negative index on shared storage (`QArrays.QArray.Modify`, `QArrays.RefusedIndexUncounts`).

`Add` of an empty array and a null one gives null, although its comment says that the other array is
returned.

`dafny verify dfyconfig.toml` checks the whole project.

## Model

| member | source | states |
|---|---|---|
| LazySteps.RunPerforms | src/Simulation/NativeSparseSimulator/SparseSimulator.h:176-578 | Main theorem of the lazy queue: after any sequence of X, Y, Z, H, MCX, MCY, MCZ, MCH, Phase, MCPhase, SWAP, CSWAP and rotations, flushing everything leaves the state the textbook operators give, up to a global phase, provided no MCX falls into the branch of McxTrapExact.McxFaithfulIff. |
| LazySteps.StepPerforms | src/Simulation/NativeSparseSimulator/SparseSimulator.h:176-578 | One gate on any state of the queue and of the pending H, Rx and Ry changes the denoted state by its textbook operator, up to a global phase. |
| LazySteps.XPerforms | src/Simulation/NativeSparseSimulator/SparseSimulator.h:176-192 | X under a pending H becomes Z and negates a pending Ry; the denoted state gets X. |
| LazySteps.YPerforms | src/Simulation/NativeSparseSimulator/SparseSimulator.h:242-250 | Y negates a pending Rx and is queued under H up to a sign; the denoted state gets Y. |
| LazySteps.ZPerforms | src/Simulation/NativeSparseSimulator/SparseSimulator.h:276-294 | Z under a pending H becomes X and negates pending Rx and Ry; the denoted state gets Z. |
| LazySteps.HPerforms | src/Simulation/NativeSparseSimulator/SparseSimulator.h:510-520 | H toggles the pending H (after Rx has run, with Ry negated); the denoted state gets H. |
| LazySteps.CnotTurnsAround | src/Simulation/NativeSparseSimulator/SparseSimulator.h:204-226 | A CNOT under H on both qubits is the CNOT with control and target exchanged, for everything else pending. |
| LazySteps.MCXPerforms | src/Simulation/NativeSparseSimulator/SparseSimulator.h:194-229 | MCX performs the controlled X in every branch outside the trap. |
| LazySteps.MCYPerforms | src/Simulation/NativeSparseSimulator/SparseSimulator.h:252-274 | MCY performs the controlled Y in every branch. |
| LazySteps.MCZPerforms | src/Simulation/NativeSparseSimulator/SparseSimulator.h:296-335 | MCZ performs the controlled Z, whether it stays a MCZ, turns into a MCX on the one qubit with a pending H, or flushes. |
| LazySteps.PhasePerforms | src/Simulation/NativeSparseSimulator/SparseSimulator.h:339-345 | An arbitrary phase runs what is pending on its qubit and is then queued. |
| LazySteps.MCPhasePerforms | src/Simulation/NativeSparseSimulator/SparseSimulator.h:347-355 | The controlled phase likewise, with target and controls in one mask. |
| LazySteps.SWAPPerforms | src/Simulation/NativeSparseSimulator/SparseSimulator.h:542-556 | SWAP of two qubits with equal or unequal pending gates exchanges them, including what is pending. |
| LazySteps.CSWAPPerforms | src/Simulation/NativeSparseSimulator/SparseSimulator.h:558-578 | CSWAP performs the controlled exchange. |
| LazySteps.MCHPerforms | src/Simulation/NativeSparseSimulator/SparseSimulator.h:522-540 | MCH performs the controlled H. |
| LazySteps.RxRyPerforms | src/Simulation/NativeSparseSimulator/SparseSimulator.h:398-435 | Rx and Ry join the pending angles, or flush what does not commute first; the rotation reaches the denoted state. |
| LazySteps.RzPerforms | src/Simulation/NativeSparseSimulator/SparseSimulator.h:398-435 | Rz is queued as a phase, equal up to the global phase of the half angle. |
| Circuits.ControlSplits | src/Simulation/NativeSparseSimulator/SparseSimulator.h:194-578 | What a control means, for every gate that has controls: with one more, the part of the state in which it is 0 is left alone and the gate acts on the part in which it is 1. |
| Circuits.NoControls | src/Simulation/NativeSparseSimulator/SparseSimulator.h:194-578 | Without controls each of these gates is its plain gate. |
| Circuits.ExchangeIsThreeX | src/Simulation/NativeSparseSimulator/quantum_state.hpp:785-790 | A controlled exchange of different qubits outside its controls is three X, each controlled by the other qubit as well. |
| Circuits.RotationMixes | src/Simulation/NativeSparseSimulator/quantum_state.hpp:803-856 | A rotation about any axis is the cosine times the state minus i times the sine times the Pauli matrix on it, of the half angle. |
| Circuits.PauliProducts | src/Simulation/NativeSparseSimulator/quantum_state.hpp:748-776 | X Y = i Z, and each Pauli matrix is its own inverse. |
| LazyMeaning.FlushQubitsKeeps | src/Simulation/NativeSparseSimulator/SparseSimulator.h:773-868 | Running what is pending on some qubits, to any level, keeps the denoted state up to a global phase and clears exactly the levels asked for. |
| LazyMeaning.FlushAllStores | src/Simulation/NativeSparseSimulator/SparseSimulator.h:810-828 | A full flush stores the denoted state, and leaves nothing queued or pending. |
| LazyMeaning.RotatedIsRotation | src/Simulation/NativeSparseSimulator/quantum_state.hpp:803-856 | The shortcuts of the rotation kernel for half and full turns are the rotation up to a global phase. |
| McxTrapExact.McxFaithfulIff | src/Simulation/NativeSparseSimulator/SparseSimulator.h:204-226 | MCX with these pending gates is the controlled X, whatever table is stored and whatever is queued, if and only if the branch "H on both, Ry pending on the target" is not taken: the source flushes only the target there. |
| McxTrapExact.TrapIsWrong | src/Simulation/NativeSparseSimulator/SparseSimulator.h:204-226 | For every configuration of pending gates in that branch there is a state, held by a table, on which the gate goes wrong. |
| McxTrapRun.TrapRunIff | src/Simulation/NativeSparseSimulator/SparseSimulator.h:176-578 | The branch reached by gates: H on the control, Ry and H on the target and a CNOT, run from the initial simulator of any width and flushed, give the textbook state if and only if the sine of the half angle is zero. |
| McxTrapExact.RunWithoutRy | src/Simulation/NativeSparseSimulator/SparseSimulator.h:176-578 | A run that starts without pending Ry and has no Ry gate never meets the branch: lazy execution is right without further condition. |
| Simulator.SparseSimulator.RunProgram | src/Simulation/NativeSparseSimulator/SparseSimulator.h:51-892 | End to end: the hash map left by running a program of gates on the object and flushing holds the textbook state up to a global phase, whatever the occupancy flags are; it has no stored zeros, its labels fit the width, with phases of modulus one its total weight is that of the state the program started from, and the flags are sound if they were. |
| Programs.ProgramFollows | src/Simulation/NativeSparseSimulator/SparseSimulator.h:51-892 | Main theorem for whole programs: any mix of gates, measurements, joint measurements, resets and releases, each with the number drawn for it, gives the answers the textbook gives for the same draws, in order, and denotes the state the textbook leaves, up to a global phase; the flags stay sound and the weight stays one. The conditions can be checked before each call: no gate in the branch of McxTrapExact.McxFaithfulIff, phases of modulus one, no draw of 0 where 1 has no chance, and Y measured on flagged qubits only. |
| Programs.CommandFollows | src/Simulation/NativeSparseSimulator/SparseSimulator.h:154-676 | One command does so: the operator, or the projection with its outcome and its factor; a release answers whether one outcome was certain. |
| Programs.ReleaseFinds | src/Simulation/NativeSparseSimulator/SparseSimulator.h:154-173 | A release finds a basis state if and only if one of the two outcomes has no chance in the denoted state. |
| Programs.TextbookSame | src/Simulation/NativeSparseSimulator/SparseSimulator.h:51-892 | Outcomes and states of the textbook do not depend on a global phase. |
| Simulator.SparseSimulator.ExecuteProgram | src/Simulation/NativeSparseSimulator/SparseSimulator.h:51-892 | The object run over such a program and flushed gives the textbook answers; its hash map holds the state the textbook leaves, without zeros, within the width and of weight one. |
| Simulator.SparseSimulator.Execute | src/Simulation/NativeSparseSimulator/SparseSimulator.h:154-676 | One command on the object is the step of the model, with the outcome its draw gives. |
| Simulator.EmptiedByZero | src/Simulation/NativeSparseSimulator/SparseSimulator.h:580-592 | The class, made new, with H twice on its qubit and a measurement that draws 0: it answers 1 and its hash map is left empty. |
| Simulator.SparseSimulator.Perform | src/Simulation/NativeSparseSimulator/SparseSimulator.h:176-578 | Each gate method changes the object by the step function and keeps the queue legal and the labels within the width, whatever the occupancy flags are; it keeps the flags sound if they were, and stores no zero. |
| Simulator.SparseSimulator.ExecuteQueuedOps | src/Simulation/NativeSparseSimulator/SparseSimulator.h:850-868 | The flush of some qubits, through the kernels of the sparse state, is the flush of the model. |
| Simulator.SparseSimulator.MCX | src/Simulation/NativeSparseSimulator/SparseSimulator.h:194-229 | The method takes the branches of the step function and keeps the object well formed, whatever the flags are. |
| Simulator.SparseSimulator.MCZ | src/Simulation/NativeSparseSimulator/SparseSimulator.h:296-335 | The method, with its search for qubits with a pending H, is the step function. |
| Simulator.SparseSimulator.SWAP | src/Simulation/NativeSparseSimulator/SparseSimulator.h:542-556 | The method is the step function. |
| Simulator.SparseSimulator.M | src/Simulation/NativeSparseSimulator/SparseSimulator.h:580-592 | The outcome is 1 exactly when the number drawn is at most the weight of the 1 part of the denoted state, and the denoted state is projected. From weight one, what is left weighs one, except nothing when 0 is drawn and the qubit has no weight at 1; then, if no zero was stored, no entry is left. A qubit that is not flagged answers 0; when the flags are sound it has no weight at 1. |
| Simulator.SparseSimulator.Reset | src/Simulation/NativeSparseSimulator/SparseSimulator.h:594-599 | The outcome is drawn as in a measurement, the state is reset from the part it names, and its weight afterwards is one or, for the same draw of 0, nothing. |
| Simulator.SparseSimulator.Release | src/Simulation/NativeSparseSimulator/SparseSimulator.h:154-173 | Releasing leaves the qubit unflagged, resetting it with the outcome drawn by its weight, or flipping it as its stored value demands; from weight one it always leaves weight one. |
| Simulator.SparseSimulator.Measure | src/Simulation/NativeSparseSimulator/SparseSimulator.h:650-676 | The method is the joint measurement of the step functions, its outcome drawn by the weight of the eigenspace of the product in the denoted state, for whatever gates are pending; a list of identities leaves the state alone. From weight one it leaves weight one, except nothing when 0 is drawn and the eigenspace has no weight. The flags stay sound when what is measured along Y is flagged. |
| Simulator.SparseSimulator.Assert | src/Simulation/NativeSparseSimulator/SparseSimulator.h:601-638 | Accepts a product that is not trivial if and only if the denoted state, with whatever gates are pending, is an eigenstate of it with the sign asserted, and keeps the denoted state. |
| JointAssert.AssertDecides | src/Simulation/NativeSparseSimulator/SparseSimulator.h:601-638 | Rewriting the axes and the sign through pending H, instead of running it, asks the stored state the question that was put to the denoted one. |
| Simulator.SparseSimulator.SplitQubits | src/Simulation/NativeSparseSimulator/SparseSimulator.h:694-697 | What the simulator hands to the split meets its conditions; it succeeds if and only if the qubits are not entangled with the others in the flushed state. |
| Occupancy.ActionsSound | src/Simulation/NativeSparseSimulator/SparseSimulator.h:154-599 | Main theorem of the flags: after any program of gates, measurements, resets and releases, a qubit not flagged as occupied has nothing pending and is 0 in every basis state of the denoted state. |
| Occupancy.RunSound | src/Simulation/NativeSparseSimulator/SparseSimulator.h:176-578 | Through any run of gates, a qubit not flagged as occupied has nothing pending and is 0 in every basis state of the queued state. |
| Occupancy.StepSound | src/Simulation/NativeSparseSimulator/SparseSimulator.h:176-578 | Each gate keeps the occupancy flags sound, whatever is pending. |
| Occupancy.UnoccupiedIsZero | src/Simulation/NativeSparseSimulator/SparseSimulator.h:744-760 | A qubit not flagged is 0 in every basis state of the denoted state. |
| Occupancy.MSound | src/Simulation/NativeSparseSimulator/SparseSimulator.h:580-592 | Measurement keeps the flags sound. |
| Occupancy.ResetSound | src/Simulation/NativeSparseSimulator/SparseSimulator.h:594-599 | Reset keeps the flags sound and clears the flag of its qubit. |
| Occupancy.ReleaseSound | src/Simulation/NativeSparseSimulator/SparseSimulator.h:154-173 | Release keeps the flags sound and clears the flag of its qubit. |
| Flags.StepFlagsAre | src/Simulation/NativeSparseSimulator/SparseSimulator.h:176-578 | Exactly which qubits each gate flags, from what is pending before it: none for a phase, none for a flip under a pending H; an exchange carries the flags over. |
| Flags.MeasuredFlags | src/Simulation/NativeSparseSimulator/SparseSimulator.h:154-599 | A measurement takes the flag from a qubit found 0 and keeps it on one found 1; a reset and a release take it from theirs; no other flag changes. |
| JointMeasure.MeasureAddsFlags | src/Simulation/NativeSparseSimulator/SparseSimulator.h:650-676 | A joint measurement flags the qubits measured along X, and no others. |
| Occupancy.MPerforms | src/Simulation/NativeSparseSimulator/SparseSimulator.h:580-592 | Measurement projects the denoted state on the outcome; for an unoccupied qubit, answering 0 without touching the state is that projection. |
| Occupancy.ResetPerforms | src/Simulation/NativeSparseSimulator/SparseSimulator.h:594-599 | Reset maps the denoted state to the measured outcome with the bit cleared. |
| BornRule.MeasuredWeight | src/Simulation/NativeSparseSimulator/SparseSimulator.h:580-599 | What a measurement or a reset leaves weighs the square of the normaliser times the weight of the outcome, whatever was pending. |
| BornRule.MeasuredUnitIff | src/Simulation/NativeSparseSimulator/quantum_state.hpp:421-496 | A measurement or reset of a flagged qubit leaves weight one of weight one if and only if it is not the case that 0 is drawn and the qubit has no weight at 1; then it leaves nothing. The source draws from a half-open interval that contains 0 and compares with at most. |
| BornRule.EmptiedRun | src/Simulation/NativeSparseSimulator/quantum_state.hpp:421-454 | H twice on a qubit of any initial simulator and a draw of 0: the outcome is 1 and the state left weighs nothing, whatever the normaliser. |
| BornRule.ReleasedUnit | src/Simulation/NativeSparseSimulator/SparseSimulator.h:154-173 | A release always leaves weight one of weight one: it resets only a qubit with weight at both outcomes. |
| BornRule.GateWeight | src/Simulation/NativeSparseSimulator/SparseSimulator.h:176-578 | A gate executed right conserves the weight of the denoted state. |
| BornRule.StoredChances | src/Simulation/NativeSparseSimulator/quantum_state.hpp:421-443 | What the kernel adds up over its entries, once the qubit is flushed, is the weight of each outcome in the denoted state. |
| BornRule.NoChance | src/Simulation/NativeSparseSimulator/SparseSimulator.h:580-584 | A qubit that is not flagged has no weight at 1, so answering 0 without a draw is right. |
| BornRule.JointOutcome | src/Simulation/NativeSparseSimulator/quantum_state.hpp:572-644 | The number a joint measurement compares its draw with is the weight of the eigenspace of the product in the denoted state, when that state weighs one, and its complement is the weight of the other eigenspace. |
| BornRule.JointMeasuredWeight | src/Simulation/NativeSparseSimulator/SparseSimulator.h:650-676 | What a joint measurement leaves weighs the square of the normaliser times the weight of its outcome. |
| BornRule.JointUnitIff | src/Simulation/NativeSparseSimulator/quantum_state.hpp:572-644 | A joint measurement leaves weight one of weight one, except nothing when the product is not trivial, 0 is drawn and its eigenspace has no weight. |
| Weights.RunIdealConserves | src/Simulation/NativeSparseSimulator/SparseSimulator.h:176-578 | Every gate whose phase has modulus one conserves the total weight, so every program does. |
| Weights.ExpectationOfEntries | src/Simulation/NativeSparseSimulator/quantum_state.hpp:572-632 | The sum the kernel takes over the stored entries is the expectation of the Pauli product over all labels. |
| Weights.HalfWeight | src/Simulation/NativeSparseSimulator/quantum_state.hpp:634-644 | The weight of half of identity plus or minus a Pauli product is the chance computed from that expectation. |
| JointMeasure.MeasurePerforms | src/Simulation/NativeSparseSimulator/SparseSimulator.h:650-676 | A joint measurement projects the denoted state whatever gates are pending and leaves an eigenstate of its outcome, a list of identities leaves the denoted state, and the H gates it runs and queues again cancel. |
| JointMeasure.MeasureSoundIff | src/Simulation/NativeSparseSimulator/SparseSimulator.h:650-676 | On a state that is not zero, the measurement keeps the occupancy flags sound if and only if every qubit measured along Y was flagged: the source does not flag the others. |
| JointMeasure.InitialYUnsound | src/Simulation/NativeSparseSimulator/SparseSimulator.h:650-676 | On any qubit of the initial simulator, whose flags are sound, they are not after Y was measured, whatever the outcome. |
| BornRule.UnflaggedMisread | src/Simulation/NativeSparseSimulator/SparseSimulator.h:580-592 | What follows: after Y was measured on a qubit that was not flagged, a measurement of it answers 0 without a draw and leaves the state, although 1 has a chance. |
| BornRule.InitialYMisread | src/Simulation/NativeSparseSimulator/SparseSimulator.h:580-592 | So on any qubit of the initial simulator, whatever the outcome along Y. |
| Bounds.StepBounded | src/Simulation/NativeSparseSimulator/SparseSimulator.h:176-578 | Gates do not look at the flags: from any flags they keep the queue legal and the labels within the qubits, and keep sound flags sound. |
| JointMeasure.MeasureBounded | src/Simulation/NativeSparseSimulator/SparseSimulator.h:650-676 | Nor does a joint measurement leave the qubits, whatever the flags. |
| JointMeasure.FlaggedMeasureSound | src/Simulation/NativeSparseSimulator/SparseSimulator.h:650-676 | The flags stay sound when all qubits measured along Y are flagged; qubits measured along X are flagged by the H gates. |
| JointMeasure.TwiceH | src/Simulation/NativeSparseSimulator/SparseSimulator.h:660-674 | H on some qubits, flushed, and H queued again denotes the same state. |
| JointMeasure.CombinedCommute | src/Simulation/NativeSparseSimulator/quantum_state.hpp:170-289 | A combination of the identity and a Pauli product passes any matrix on another qubit. |
| SparseState.QuantumState.PhaseAndPermute | src/Simulation/NativeSparseSimulator/quantum_state.hpp:699-801 | The fused pass over the entries stores what applying the operations one at a time gives, keeps the number of stored entries, and stores no zero when no queued phase is zero. |
| SparseState.QuantumState.RunOperations | src/Simulation/NativeSparseSimulator/quantum_state.hpp:746-795 | The inner loop carries one entry through all operations. |
| Kernels.RunAt | src/Simulation/NativeSparseSimulator/quantum_state.hpp:742-801 | The amplitude of a label goes to the composed label with the composed factor. |
| Kernels.OperationAt | src/Simulation/NativeSparseSimulator/quantum_state.hpp:748-792 | Each operation moves a label and multiplies its amplitude as its operator does. |
| Kernels.OriginInverts | src/Simulation/NativeSparseSimulator/quantum_state.hpp:742-801 | The composed label map is a bijection when targets are outside controls, so emplace never drops an entry. |
| Kernels.PermutedAll | src/Simulation/NativeSparseSimulator/quantum_state.hpp:742-801 | A table that holds every carried entry is the queue applied to the state. |
| Kernels.PairsAll | src/Simulation/NativeSparseSimulator/quantum_state.hpp:935-1003 | A table built pair by pair is the controlled matrix applied to the state, and has no stored zeros if the old one had none. |
| SparseState.QuantumState.MCH | src/Simulation/NativeSparseSimulator/quantum_state.hpp:973-1003 | The H kernel, for entries with and without a stored partner and each pair handled once, is the controlled H, and stores no zeros. |
| SparseState.QuantumState.R | src/Simulation/NativeSparseSimulator/quantum_state.hpp:803-856 | The rotation kernel with its shortcuts is the rotation (or X, Y, or nothing), and stores no zeros if none were stored. |
| SparseState.QuantumState.M | src/Simulation/NativeSparseSimulator/quantum_state.hpp:421-454 | The outcome is 1 exactly when the number drawn is at most the weight of the entries with the bit set, and the projection on it is stored, divided by the root of its weight. |
| SparseState.QuantumState.Reset | src/Simulation/NativeSparseSimulator/quantum_state.hpp:456-496 | The outcome is drawn likewise, and the projection is stored with the bit cleared. |
| SparseState.QuantumState.IsQubitClassical | src/Simulation/NativeSparseSimulator/quantum_state.hpp:1018-1032 | The scan says whether the qubit has one value in all stored states, and which. |
| BitsetOrder.Less | src/Simulation/NativeSparseSimulator/quantum_state.hpp:53-64 | The comparison of bitsets by 64-bit windows is the numeric order for every width. |
| BitsetOrder.OrderTotal | src/Simulation/NativeSparseSimulator/quantum_state.hpp:53-64 | Different labels have different numbers, so exactly one of a pair is the smaller. |
| BitsetOrder.WindowDecides | src/Simulation/NativeSparseSimulator/quantum_state.hpp:58-62 | The highest window in which two labels differ decides their order. |
| PauliStrings.StringAt | src/Simulation/NativeSparseSimulator/quantum_state.hpp:170-289 | A Pauli product moves the amplitude of a label along the flip mask with the factor i^Y and the parity sign. |
| PauliStrings.StringTwice | src/Simulation/NativeSparseSimulator/quantum_state.hpp:510-567 | A Pauli product is its own inverse. |
| PauliStrings.FlippedParity | src/Simulation/NativeSparseSimulator/quantum_state.hpp:258-265 | The parity sign of the flipped label differs from that of the label by the parity of the number of Ys. |
| PauliStrings.YsCounted | src/Simulation/NativeSparseSimulator/quantum_state.hpp:175-195 | The qubits both flipped and signed are as many as the Y axes. |
| PauliKernels.PairCombined | src/Simulation/NativeSparseSimulator/quantum_state.hpp:266-288 | The two amplitudes the kernel writes for a label pair are those of id plus pauli times the product. |
| PauliKernels.TurnedIsPower | src/Simulation/NativeSparseSimulator/quantum_state.hpp:242-255 | The switch on the Y count modulo 4 multiplies by that power of i. |
| PauliKernels.ProjectedIsEigen | src/Simulation/NativeSparseSimulator/quantum_state.hpp:634-644 | Half of identity plus or minus a Pauli product maps every state to an eigenstate of the product. |
| PauliKernels.EigenIsPaired | src/Simulation/NativeSparseSimulator/quantum_state.hpp:550-556 | When no zero is stored, an eigenstate stores the partner of every entry, as the comment in the source says. |
| PauliKernels.MismatchIsNotEigen | src/Simulation/NativeSparseSimulator/quantum_state.hpp:550-567 | An entry that fails the comparison proves that its partner is not stored or that the state is not in the eigenspace. |
| SparseState.QuantumState.Masks | src/Simulation/NativeSparseSimulator/quantum_state.hpp:175-195 | The loop over the axes gives the flip mask, the sign mask and the Y count. |
| SparseState.QuantumState.PauliCombination | src/Simulation/NativeSparseSimulator/quantum_state.hpp:170-289 | The kernel stores id times the state plus pauli times the product of it, for every axis list on different qubits, and stores no zeros; for identities only it leaves the state alone. |
| SparseState.QuantumState.CombineFlipping | src/Simulation/NativeSparseSimulator/quantum_state.hpp:242-289 | With a flip, every label pair is handled exactly once, from its smaller label. |
| SparseState.QuantumState.CombineDiagonal | src/Simulation/NativeSparseSimulator/quantum_state.hpp:203-241 | Without one, every entry is scaled by its parity. |
| SparseState.QuantumState.Assert | src/Simulation/NativeSparseSimulator/quantum_state.hpp:510-567 | The assertion accepts if and only if the state is in the eigenspace of the outcome and the partner of every stored entry is stored; when no zero is stored, as the simulator keeps it, if and only if the state is in the eigenspace. |
| SparseState.QuantumState.Measure | src/Simulation/NativeSparseSimulator/quantum_state.hpp:634-644 | The outcome is drawn by the probability summed over the entries; measuring a product that is not trivial stores the projection, which is in the eigenspace Assert accepts for the same outcome, and a trivial one leaves the state alone. |
| SparseState.QuantumState.SplitWavefunction | src/Simulation/NativeSparseSimulator/quantum_state.hpp:1098-1165 | With no stored zeros, the split succeeds if and only if the state is a tensor product across the mask; the product of its two outputs, each of total weight one, is then the state up to a nonzero scalar. |
| Separability.SizesDecide | src/Simulation/NativeSparseSimulator/quantum_state.hpp:1154-1156 | After all cross comparisons pass, the support sizes agree if and only if the state is a product. |
| Separability.ProductIsCrossed | src/Simulation/NativeSparseSimulator/quantum_state.hpp:1122-1134 | A product state passes every cross comparison. |
| Separability.FirstFactorStep | src/Simulation/NativeSparseSimulator/quantum_state.hpp:1138-1144 | The quotient stored for a masked part does not depend on the label it is taken from. |
| Separability.SecondFactorStep | src/Simulation/NativeSparseSimulator/quantum_state.hpp:1145-1151 | Likewise for the other part. |
| Separability.GridFilled | src/Simulation/NativeSparseSimulator/quantum_state.hpp:1154-1156 | The stored labels lie in the grid of their two parts and fill it exactly when the sizes multiply. |
| Separability.FactorsMultiply | src/Simulation/NativeSparseSimulator/quantum_state.hpp:1098-1165 | When the grid is full, every amplitude is the base amplitude times the two factors, including those that are not stored. |
| ReusePool.ReuseSafety | src/Simulation/QCTraceSimulator/QubitManagerRestrictedReuse.cs:165-221 | Reuse safety over whole runs, in every mode: an id released in one segment of an area and not taken again before the next is returned by no allocation until the area ends, through any nesting and any capacity growth. |
| RestrictedReuse.RunManager | src/Simulation/QCTraceSimulator/QubitManagerRestrictedReuse.cs:165-438 | A manager made and run on any events that break no list: what the allocations return is safe in the sense of ReusePool.ReuseSafety; with reuse discouraged and a growing capacity the ids returned are 0, 1, 2, ... |
| ReusePool.NeverReissued | src/Simulation/QCTraceSimulator/QubitManagerRestrictedReuse.cs:193-213 | With reuse discouraged and a growing capacity, the ids any run issues are 0, 1, 2, ...: areas, segments and releases never bring one back. |
| ReusePool.GoneStays | src/Simulation/QCTraceSimulator/QubitManagerRestrictedReuse.cs:196-206 | An id that is neither in a list nor in use is never issued again. |
| ReusePool.TakeSupply | src/Simulation/QCTraceSimulator/QubitManagerRestrictedReuse.cs:193-213 | An allocation without growth succeeds if and only if some allowed list has an id, and takes one from the supply. |
| ReusePool.AllocateIff | src/Simulation/QCTraceSimulator/QubitManagerRestrictedReuse.cs:193-213 | An allocation succeeds if and only if there is room: ids in the allowed lists, and with growth those that doublings up to 64 bits add. It takes one from the room; the capacity is doubled exactly when no list offers an id, growth is allowed and twice the capacity fits. |
| ReusePool.EndFrees | src/Simulation/QCTraceSimulator/QubitManagerRestrictedReuse.cs:182-191 | At the end of an area everything free in it becomes reusable in the area around it, which bars what it did before. |
| ReusePool.NextBarsOnly | src/Simulation/QCTraceSimulator/QubitManagerRestrictedReuse.cs:170-180 | A new segment bars what is free in the innermost area, and in no other. |
| ReusePool.LastReleasedFirst | src/Simulation/QCTraceSimulator/QubitManagerRestrictedReuse.cs:193-221 | With reuse encouraged, the id released last is the one the next allocation returns. |
| ReusePool.DisabledForGood | src/Simulation/QCTraceSimulator/QubitManagerRestrictedReuse.cs:296-309 | In no run is a disabled id issued again. |
| ReusePool.ResultsSafe | src/Simulation/QCTraceSimulator/QubitManagerRestrictedReuse.cs:165-221 | Reuse safety as a statement about the list of results of a run. |
| ReusePool.RunProper | src/Simulation/QCTraceSimulator/QubitManagerRestrictedReuse.cs:165-221 | In every run the lists of all areas hold no id twice and none in use. |
| ReusePool.BarredStays | src/Simulation/QCTraceSimulator/QubitManagerRestrictedReuse.cs:165-221 | What an open area bars stays barred and is not returned, whatever the event. |
| ReusePool.FreeStays | src/Simulation/QCTraceSimulator/QubitManagerRestrictedReuse.cs:165-221 | A free id within an open area stays within it until an allocation returns it. |
| ReusePool.EndKeeps | src/Simulation/QCTraceSimulator/QubitManagerRestrictedReuse.cs:182-191 | The end of an area loses and duplicates no id. |
| ReusePool.NextKeeps | src/Simulation/QCTraceSimulator/QubitManagerRestrictedReuse.cs:170-180 | A new segment loses and duplicates no id. |
| ReusePool.GrowProper | src/Simulation/QCTraceSimulator/QubitManagerRestrictedReuse.cs:263-277 | Growing adds exactly the new ids. |
| RestrictedReuse.QubitManagerRestrictedReuse.Perform | src/Simulation/QCTraceSimulator/QubitManagerRestrictedReuse.cs:165-438 | Every event on the shared array, the list pointers, the marks and the counters does what the machine over values does and keeps the object valid (lists acyclic, ended by None, disjoint, with correct last pointers, holding no id in use, and the counters the numbers of marks) if and only if it is not a release of an id in use, with reuse discouraged and a fixed capacity, while the innermost allowed list has ids. |
| RestrictedReuse.QubitManagerRestrictedReuse.Run | src/Simulation/QCTraceSimulator/QubitManagerRestrictedReuse.cs:165-438 | The results and the ids issued by a sequence of events on the object that breaks no list are those of the machine over values. |
| RestrictedReuse.QubitManagerRestrictedReuse.NextRestrictedReuseSegment | src/Simulation/QCTraceSimulator/QubitManagerRestrictedReuse.cs:170-180 | The allowed list goes to the front of the prohibited one by two pointer writes; all other lists stay as they were. |
| RestrictedReuse.QubitManagerRestrictedReuse.EndRestrictedReuseArea | src/Simulation/QCTraceSimulator/QubitManagerRestrictedReuse.cs:182-191 | Both lists of the ending area go to the front of the containing allowed list; refused without an active area. |
| RestrictedReuse.QubitManagerRestrictedReuse.AllocateQubit | src/Simulation/QCTraceSimulator/QubitManagerRestrictedReuse.cs:193-213 | The id taken is the first of the innermost (or, with reuse discouraged, outermost) allowed list that has one. |
| RestrictedReuse.QubitManagerRestrictedReuse.EnsureCapacity | src/Simulation/QCTraceSimulator/QubitManagerRestrictedReuse.cs:263-277 | The larger array keeps every link and mark, and the new ids go to the front of the outermost allowed list. |
| RestrictedReuse.QubitManagerRestrictedReuse.Allocate | src/Simulation/QCTraceSimulator/QubitManagerRestrictedReuse.cs:345-357 | One allocation. It succeeds if and only if a list offers an id, or growth is allowed and twice the capacity is a 64-bit integer; the capacity is then exactly doubled, and only when no list offers an id. |
| RestrictedReuse.QubitManagerRestrictedReuse.AllocateMany | src/Simulation/QCTraceSimulator/QubitManagerRestrictedReuse.cs:363-390 | Several at once: given if and only if there is room for them, counting every doubling that fits 64 bits; then different ids that were free or new. Otherwise none, with the ids in use as before and, unless ids are never reused, also those in the lists. |
| RestrictedReuse.QubitManagerRestrictedReuse.Release | src/Simulation/QCTraceSimulator/QubitManagerRestrictedReuse.cs:417-438 | A release of any number puts the id in the innermost allowed list, discards it, ignores a disabled one or refuses; it keeps the object valid exactly when it breaks no list, and otherwise the array and both pointers are given, which hold no list at all. |
| RestrictedReuse.QubitManagerRestrictedReuse.Disable | src/Simulation/QCTraceSimulator/QubitManagerRestrictedReuse.cs:296-309 | Disabling takes an id in use away; any other number is refused. |
| RestrictedReuse.QubitList.MoveAllQubitsFrom | src/Simulation/QCTraceSimulator/QubitManagerRestrictedReuse.cs:112-131 | All ids of one list go to the front of another by constant work. |
| RestrictedReuse.QubitList.AddQubit | src/Simulation/QCTraceSimulator/QubitManagerRestrictedReuse.cs:75-93 | Adding at the front keeps the list; adding at the back of a list that is not empty leaves the last pointer behind. |
| RestrictedReuse.QubitList.TakeQubitFromFront | src/Simulation/QCTraceSimulator/QubitManagerRestrictedReuse.cs:95-110 | Takes the first id, or None. |
| RestrictedReuse.BackAddIff | src/Simulation/QCTraceSimulator/QubitManagerRestrictedReuse.cs:87-92 | Adding at the back leaves a list that holds the new id with correct pointers if and only if the list was empty. |
| RestrictedReuse.BackAddLoses | src/Simulation/QCTraceSimulator/QubitManagerRestrictedReuse.cs:87-92 | Added at the back of a list that is not empty, the id leaves pointers and links that hold no list. |
| RestrictedReuse.SecondBackAddLoses | src/Simulation/QCTraceSimulator/QubitManagerRestrictedReuse.cs:87-92 | The next id added at the back takes the place of the one before, which is then in no list. |
| RestrictedReuse.StaleOverwrites | src/Simulation/QCTraceSimulator/QubitManagerRestrictedReuse.cs:75-110 | The pointer left behind: once the ids before one added at the back have been issued, it names an id in use, and the next id added at the back overwrites that mark and is in no list. |
| RestrictedReuse.StaleRun | src/Simulation/QCTraceSimulator/QubitManagerRestrictedReuse.cs:75-110 | For every fixed capacity of at least three: two ids taken, one released, the others taken, and the second released leave the last id, in use, marked as a link. |
| LinkedLists.ChainUnique | src/Simulation/QCTraceSimulator/QubitManagerRestrictedReuse.cs:46-131 | A first element and the array determine the list. |
| LinkedLists.JoinChain | src/Simulation/QCTraceSimulator/QubitManagerRestrictedReuse.cs:112-131 | One link joins two disjoint lists. |
| QubitPool.NeverReissued | src/Simulation/Common/QubitManager.cs:324-394 | Without reuse and with a growing capacity, the ids issued by any run are 0, 1, 2, ...: none is issued twice. |
| QubitPool.FirstFreedFirstIssued | src/Simulation/Common/QubitManager.cs:464-485 | With a fixed capacity and no reuse every run is a queue: the ids issued, followed by the free list, are the initial ids followed by those released, in the order of their release. |
| QubitPool.LastFreedFirstIssued | src/Simulation/Common/QubitManager.cs:464-468 | With reuse every run is a stack: if the ids that wait have not become fewer since a release and are as many as right after it, an allocation issues the id released there. |
| QubitPool.NoneWaiting | src/Simulation/Common/QubitManager.cs:464-468 | When no released id waits, an allocation issues the next id never issued before. |
| QubitPool.RollBackRestores | src/Simulation/Common/QubitManager.cs:425-436 | What a failed request gives back restores every status and all free ids, in their order for the queue and reversed for the stack; a growing capacity never fails. |
| QubitPool.GrabFixed | src/Simulation/Common/QubitManager.cs:425-440 | With a fixed capacity, a request takes the first ids of the list. |
| QubitPool.ManyIff | src/Simulation/Common/QubitManager.cs:413-445 | Several ids are given if and only if the capacity may grow or enough are free; they are then different and were not in use, and nothing else comes into use. Otherwise no status changes and the same ids are free. |
| ManagerRuns.UsedIffInUse | src/Simulation/Common/QubitManager.cs:123-152 | In every well-scoped run of operations that begin, end, allocate, release, borrow and return, what a frame uses is in use, and every id in use is a local of some frame; so the count of ids to lend that a borrow computes is right. |
| ManagerRuns.RunProgram | src/Simulation/Common/QubitManager.cs:123-692 | Such a run on the class: it follows the machine, and in its array the mark of an id only lent, minus the base mark plus one, is its number of outstanding loans. |
| ManagerRuns.RunEvents | src/Simulation/Common/QubitManager.cs:324-502 | Allocations, releases and disabling run on the class issue the ids of the pool: never one twice in the stream, first in first out in the queue. |
| ManagerRuns.FailedBorrowRun | src/Simulation/Common/QubitManager.cs:599-606 | While one id is lent, an operation that asks for two at a fixed capacity of one fails and leaves the mark at one loan more, which is among its locals. |
| ManagerRuns.SingleBorrowRun | src/Simulation/Common/QubitManager.cs:637-646 | On a fresh manager a single borrow has nothing to lend, and the id it yields is in use after its return. |
| QubitManagement.FailedBorrowIff | src/Simulation/Common/QubitManager.cs:599-635 | A failed batch gives the free ids back but keeps its loans, in the marks and among the locals of the running operation, where they count as used: nothing but the order of the free list changes if and only if there was nothing to lend, and the marks alone do not change if and only if only ids allocated otherwise were lent. |
| QubitManagement.SameStatus | src/Simulation/Common/QubitManager.cs:66-75 | Re-marking for the doubled array keeps the status and the loan count that every value stands for, although old links have no case. |
| QubitManagement.QubitManager.ExtendCapacity | src/Simulation/Common/QubitManager.cs:326-377 | Doubling keeps the status and loans of every qubit and makes exactly the new ids the free list. |
| QubitManagement.QubitManager.AllocateQubit | src/Simulation/Common/QubitManager.cs:324-394 | Takes the head of the free list threaded through the array, marks it, and counts it as a local of the running operation. |
| QubitManagement.QubitManager.AllocateMany | src/Simulation/Common/QubitManager.cs:413-445 | Several at once if and only if the capacity may grow or enough are free, else none; on failure the pool is restored and the locals are as before. |
| QubitManagement.QubitManager.ReleaseQubit | src/Simulation/Common/QubitManager.cs:451-502 | A release threads the id to the front, to the back, or nowhere, by the mode; a disabled qubit stays so, a wrong mark is refused, and one that is no local of the running operation is freed before the missing count is noticed. |
| QubitManagement.QubitManager.Disable | src/Simulation/Common/QubitManager.cs:290-297 | Any qubit is marked for good; the object is valid afterwards if and only if it was in use. |
| QubitManagement.QubitManager.BorrowFrom | src/Simulation/Common/QubitManager.cs:539-572 | The scan against the sorted stack of qubits in use finds the first id from the minimum on that may be lent, and leaves the stack ready for the next search. |
| QubitManagement.QubitManager.BorrowMany | src/Simulation/Common/QubitManager.cs:575-612 | The batch lends the first candidates and allocates the rest; the branch for a search that finds nothing is never reached. |
| QubitManagement.BorrowsFromOthers | src/Simulation/Common/QubitManager.cs:122-150 | An operation is lent no qubit that it has as a local or as an argument, in a batch or alone. |
| QubitManagement.QubitManager.Borrow | src/Simulation/Common/QubitManager.cs:618-635 | Borrows for the running operation, and nothing that is among its locals or arguments. |
| QubitManagement.QubitManager.BorrowSingle | src/Simulation/Common/QubitManager.cs:637-646 | One candidate, or an ordinary allocation, that is neither a local nor an argument of the running operation; without either, the locals stay as they were. |
| QubitManagement.QubitManager.Return | src/Simulation/Common/QubitManager.cs:656-692 | Takes one loan off; the last loan of an id only lent releases it, whether or not it is a local of the running operation. |
| QubitManagement.QubitManager.QubitsInUse | src/Simulation/Common/QubitManager.cs:123-152 | Exactly the locals and the arguments of the running operation that are not disabled. |
| Borrowing.BorrowExact | src/Simulation/Common/QubitManager.cs:575-612 | A successful batch yields n different ids, none in use by the borrower or disabled, exactly min(n, allocated - in use) of them already allocated. |
| Borrowing.BorrowFailsIff | src/Simulation/Common/QubitManager.cs:592-606 | A batch fails if and only if the capacity is fixed and n exceeds what can be lent plus what is free. |
| Borrowing.LoansConserved | src/Simulation/Common/QubitManager.cs:539-692 | In every well-scoped run of allocations, releases, successful batches and returns, the mark of an id only lent minus the base mark plus one is its number of outstanding loans, and its last return frees it. |
| Borrowing.BorrowBalanced | src/Simulation/Common/QubitManager.cs:575-612 | A successful batch keeps marks and outstanding loans in balance; a failed one does if and only if no status changed. |
| Borrowing.ReturnBalanced | src/Simulation/Common/QubitManager.cs:656-692 | A return keeps the balance and frees the id exactly when that was the last loan of one only lent. |
| Borrowing.SingleBorrowIff | src/Simulation/Common/QubitManager.cs:637-646 | What a single borrow yields is in use after its return; borrow and return restore what is in use if and only if there was an id to lend. |
| Borrowing.BatchOfOneReturned | src/Simulation/Common/QubitManager.cs:575-612 | A batch of one, by contrast, is undone by its return. |
| Borrowing.CandidateCount | src/Simulation/Common/QubitManager.cs:579 | The count the manager computes is the number of ids that may be lent. |
| QArrays.Environment.Run | src/Simulation/Core/QArray.cs:37-451 | Value semantics under aliasing: a program of array creations, copies, slices, concatenations, element updates and range updates on shared storage computes what it does on plain sequences, when no array is set to itself in an order that overwrites an element before it is read. |
| QArrays.Environment.Execute | src/Simulation/Core/QArray.cs:37-451 | One command changes the values of all arrays as on plain sequences if and only if it is no range update of an array with itself, or one that reads every element before it is overwritten with another. |
| QArrays.QArray.Modify | src/Simulation/Core/QArray.cs:323-335 | Changes exactly one element of exactly one array, copying shared storage first, and keeps the reference counts; what a negative index does is given, and exactly when it loses a count. |
| QArrays.QArray.ModifyRange | src/Simulation/Core/QArray.cs:347-360 | Sets the elements a range names, in its order, up to the first index that does not exist, reading the current elements when the values are the array itself; other arrays keep their values. |
| QArrays.OwnRangeIff | src/Simulation/Core/QArray.cs:347-360 | An array whose range is set to the array itself gets its old values there if and only if no element is read after it was overwritten with another one. |
| QArrays.OwnWholeRange | src/Simulation/Core/QArray.cs:347-360 | For a range that names all elements this is so if and only if the step is positive or the value reads the same backwards. |
| QArrays.ReversedOntoItself | src/Simulation/Core/QArray.cs:347-360 | Over values: [1, 2, 3] set to itself from back to front gives [1, 2, 1] and not [3, 2, 1]. |
| QArrays.ReverseOntoItself | src/Simulation/Core/QArray.cs:347-360 | The class does so. |
| QArrays.RefusedIndexUncounts | src/Simulation/Core/QArray.cs:112-121 | A refused negative index takes a count off shared storage: afterwards two arrays share storage that both may set in place. |
| QArrays.OverwriteRange | src/Simulation/Core/QArray.cs:347-360 | The positions of a range are different, so each value ends at its place and nothing else changes. |
| QArrays.QArray.Slice | src/Simulation/Core/QArray.cs:373-409 | The elements the range names, in its order; refused if and only if some index does not exist; nothing changes elsewhere. |
| QArrays.QArray.CopyAndCompress | src/Simulation/Core/QArray.cs:165-172 | The array moves to storage of its own with the same value; counts follow. |
| QArrays.QArray.Copy | src/Simulation/Core/QArray.cs:183-198 | A second view of the storage, with its count one higher. |
| QArrays.QArray.ExtendWith | src/Simulation/Core/QArray.cs:441-446 | Writing behind the end of the storage changes the value of no array. |
| QArrays.Add | src/Simulation/Core/QArray.cs:419-451 | The result is the concatenation, also when the storage is lengthened in place or both arguments share it; no array changes its value. |
| QArrays.QArrayInner.SetElement | src/Simulation/Core/QArray.cs:112-121 | Sets an element in place, or in a detached copy when the storage is shared, where the count is taken off before the index is tested. |
| QArrays.QArray.Get | src/Simulation/Core/QArray.cs:302-305 | The element of the view, refused beyond the length; what a negative index reads is given. |
| QArrays.RangeInside | src/Simulation/Core/QArray.cs:386-393 | Testing the first and last value of a range decides whether all are indices. |
| QArrays.SliceView | src/Simulation/Core/QArray.cs:400-409 | A strided view of a strided view selects the elements of the range. |
| QArrays.LongerFits | src/Simulation/Core/QArray.cs:432-442 | A view with a positive step that runs to the end of its storage can be lengthened over new positions only. |
| Ranges.ElementsAre | src/Simulation/Core/QRange.cs:69-108 | A range is empty if and only if it enumerates nothing; otherwise its length is the truncated quotient plus one and its values are start + i * step. |
| Ranges.ReverseReverses | src/Simulation/Core/QRange.cs:72-77 | The reverse enumerates the same values in the opposite order, for either sign of the step. |
| Ranges.Enumerate | src/Simulation/Core/QRange.cs:90-110 | The two loops of the enumerator yield the values of the range. |
| GateSchedule.HeaviestChain | src/Simulation/QCTraceSimulator/DepthCounter.cs:226-234 | Without depth optimisation, the time a qubit is available is the weight of the heaviest chain of gates, linked by shared qubits, that ends on it. |
| GateSchedule.ChainBound | src/Simulation/QCTraceSimulator/DepthCounter.cs:226-234 | No chain is heavier than the availability time. |
| GateSchedule.ChainReaches | src/Simulation/QCTraceSimulator/DepthCounter.cs:226-234 | Some chain weighs just that time. |
| DepthCounting.QubitAvailabilityTimeTracker.SetTime | src/Simulation/QCTraceSimulator/QubitAvailabilityTimeTracker.cs:43-57 | Sets one time, growing the table as needed; no other time changes. |
| DepthCounting.DepthCounter.MaxAvailableTime | src/Simulation/QCTraceSimulator/DepthCounter.cs:175-190 | The largest time of some qubits, and zero. |
| DepthCounting.DepthCounter.OnOperationStart | src/Simulation/QCTraceSimulator/DepthCounter.cs:145-156 | The start of an operation is the time all its inputs are available. |
| DepthCounting.DepthCounter.OnOperationEnd | src/Simulation/QCTraceSimulator/DepthCounter.cs:115-143 | The sample is the difference of the end and the recorded start, as DepthSamples.SampleReaches explains them; its depth, start difference and width are never negative in properly nested runs. |
| DepthCounting.DepthCounter.OnPrimitiveOperation | src/Simulation/QCTraceSimulator/DepthCounter.cs:192-236 | A gate of a duration that is not negative: without optimisation the gate history and the table agree with the schedule of gates; with it, all qubits of a gate on several are fixed and end together, at the times DepthChains.EndIsHeaviest explains. |
| DepthCounting.DepthCounter.OnAllocate | src/Simulation/QCTraceSimulator/DepthCounter.cs:95-109 | Without depth optimisation the largest qubit id seen is kept; with it, ids are not looked at. |
| DepthCounting.FixedStarts | src/Simulation/QCTraceSimulator/DepthCounter.cs:212-223 | The subtraction that fixes a qubit in time never throws, and its start is not after its end. |
| DepthCounting.DepthCounter.OnRelease | src/Simulation/QCTraceSimulator/DepthCounter.cs:238-309 | Qubits not fixed in time are fixed at zero; every released qubit that was in a gate is placed on an underlying qubit, in the order of the starts, and nothing placed before moves; busy intervals on one id never overlap and the pools keep first starts and last ends of the same ids. |
| DepthRuns.RunEvents | src/Simulation/QCTraceSimulator/DepthCounter.cs:95-309 | Whole runs: a new counter over all events of a properly nested program has the times, gates and samples of a machine over values, no sample of it is negative, no two busy intervals placed on one underlying qubit overlap, they are the spans of all released qubits that were in a gate, and with optimisation the counter of ids counts exactly the underlying qubits used. |
| DepthRuns.StepShaped | src/Simulation/QCTraceSimulator/DepthCounter.cs:192-262 | Every event keeps each qubit in time: starts fixed once, not after ends, so no subtraction throws in any run. |
| DepthRuns.HandleApply | src/Simulation/QCTraceSimulator/DepthCounter.cs:192-236 | A gate changes the times of its qubits, and of no others, as the machine says. |
| DepthRuns.HandleRelease | src/Simulation/QCTraceSimulator/DepthCounter.cs:238-309 | A release fixes starts, records the time and places the spans of its qubits. |
| DepthRuns.HandleEnd | src/Simulation/QCTraceSimulator/DepthCounter.cs:115-143 | The end of an operation is sampled and passed to its caller. |
| DepthChains.EndIsHeaviest | src/Simulation/QCTraceSimulator/DepthCounter.cs:192-225 | In every run with depth optimisation, the end time of every traced qubit is the time of the heaviest chain of the gates applied so far, linked by shared qubits, that ends on it: its depth is the weight of the chain, and its trailing count the gates of no duration behind the last one that has a duration. |
| DepthChains.StartsExplained | src/Simulation/QCTraceSimulator/DepthCounter.cs:212-223 | In every run with depth optimisation: a qubit without a start had only gates alone, and its end is as deep as they are together; any other got its start from its release, at zero, or from the first gate it shares, where the start plus what it did on its own is the time that gate waits for. |
| DepthChains.SubtractMeets | src/Simulation/QCTraceSimulator/SortedQubitPool.cs:66-79 | The difference of two times is the one start from which the second reaches the first. |
| DepthSamples.SampleReaches | src/Simulation/QCTraceSimulator/DepthCounter.cs:115-156 | In every run, in either mode: the depth of a sample reaches from where all inputs of the operation were available to the last time anything it used was available, over every qubit released or returned in it or in one within it, every input, and every qubit it gives back; its start difference is between the last input and the first. |
| DepthSamples.CountDepths | src/Simulation/QCTraceSimulator/DepthCounter.cs:95-309 | A new counter run over the events of a program has just these samples, ends and starts. |
| DepthCounting.DepthCounter.PlaceSpan | src/Simulation/QCTraceSimulator/DepthCounter.cs:268-306 | One span goes behind the greatest last end that fits, before the least first start that fits, or on a new id when neither does, on the side of the shorter gap when both do; neither subtraction throws. |
| DepthCounting.ChosenIsNearest | src/Simulation/QCTraceSimulator/DepthCounter.cs:268-306 | So the underlying qubit chosen is one that idles shortest next to the span, over all underlying qubits and both sides; a new one is taken exactly when the span fits behind or in front of what is on none. |
| ComplexTimes.PlaceAfterSound | src/Simulation/QCTraceSimulator/DepthCounter.cs:286-291 | Placing behind the last end keeps all busy intervals of every id apart. |
| ComplexTimes.PlaceBeforeSound | src/Simulation/QCTraceSimulator/DepthCounter.cs:292-297 | Placing before the first start does too. |
| ComplexTimes.PlaceNewSound | src/Simulation/QCTraceSimulator/DepthCounter.cs:298-305 | A new id, counted from -1, is not in use. |
| ComplexTimes.NewTight | src/Simulation/QCTraceSimulator/DepthCounter.cs:298-305 | With it, the ids counted stay exactly those in use, and each pool entry the start or end of an interval placed on its id. |
| ComplexTimes.PlacedTight | src/Simulation/QCTraceSimulator/DepthCounter.cs:286-297 | Placing on an id in use keeps this. |
| ComplexTimes.SubtractLater | src/Simulation/QCTraceSimulator/SortedQubitPool.cs:66-79 | Subtraction throws if and only if the depth is smaller; never from a later time. |
| ComplexTimes.AdvanceLater | src/Simulation/QCTraceSimulator/SortedQubitPool.cs:51-58 | A gate moves time strictly on, also one of no depth. |
| ComplexTimes.TotalOrder | src/Simulation/QCTraceSimulator/SortedQubitPool.cs:85-93 | The comparison is a total order. |
| SortedQubitPools.SortedQubitPool.FindBound | src/Simulation/QCTraceSimulator/SortedQubitPool.cs:323-349 | For every shape of the search tree, the greatest stored time at most the request or the least at least it, and whether there is one. |
| SortedQubitPools.SortedQubitPool.TryGetValue | src/Simulation/QCTraceSimulator/SortedQubitPool.cs:226-263 | The search for an absent sample leaves both its neighbours in the comparer. |
| SortedQubitPools.HarvestStep | src/Simulation/QCTraceSimulator/SortedQubitPool.cs:226-263 | One comparison keeps the harvest a bound of everything outside the subtree still to be searched. |
| SortedQubitPools.HarvestDone | src/Simulation/QCTraceSimulator/SortedQubitPool.cs:192-263 | When nothing is left to search, the harvest is the greatest time below and the least above. |
| SortedQubitPools.VisitingComparer.CompareSample | src/Simulation/QCTraceSimulator/SortedQubitPool.cs:226-263 | The comparison of the sample with a node, and what it harvests. |
| SortedQubitPools.SortedQubitPool.Add | src/Simulation/QCTraceSimulator/SortedQubitPool.cs:295-311 | Adds one id at a time, chained behind an id of the same time. |
| SortedQubitPools.SortedQubitPool.Remove | src/Simulation/QCTraceSimulator/SortedQubitPool.cs:356-375 | Removes one id with the time given and returns it. |
| SortedQubitPools.DeleteContent | src/Simulation/QCTraceSimulator/SortedQubitPool.cs:366-367 | Removing a node takes its ids and no others. |

## Left out

- Sines, cosines and the Hadamard normaliser enter as exact reals that satisfy their defining equations; rounding, precision thresholds and load factors are not modelled.
- Random numbers and square roots: a measurement takes the number drawn, and a function that stands for one over the square root; that the numbers drawn are uniform is not stated.
- MCR, Exp and MCExp, T, S, R1 and their fractions, MCApplyAnd: compositions of what is modelled, or arbitrary-angle kernels of the same shape.
- allocate_specific_qubit, probe, sampling, the text a dump writes, counters of used qubits, console output, the C API and the template choice of bitset width.
- The five parallel vectors of pending gates are one vector of records, and the control vectors of a queued operation are a mask.
- SparseState.QuantumState.H: modelled as the controlled kernel with no controls; the source repeats the loop.
- Programs.Followed: a draw of 0 where 1 has no chance is left to BornRule.MeasuredUnitIff, and Y measured on a qubit that is not flagged to BornRule.UnflaggedMisread; runs that go on from either are not compared with the textbook.
- DepthRuns.SameSamples: with depth optimisation the width of a sample is the difference of two counts of underlying qubits, whose choice among equally good ones is left open, and is stated to be not negative only.
- JointMeasure.StepMeasure: the qubits are different, as the masks of the source assume.
- RestrictedReuse.QubitManagerRestrictedReuse.Run: the events break no list (ReusePool.KeptRun); after one that does, what happens is stated over the array and the two pointers of that list (RestrictedReuse.StaleOverwrites), not over the object.
- RestrictedReuse.QubitManagerRestrictedReuse.AllocateMany: not for a roll-back of two or more ids with reuse discouraged and a fixed capacity, whose second release breaks the list.
- RestrictedReuse.QubitManagerRestrictedReuse.constructor: the capacity is a 64-bit integer, as the type of the argument demands.
- DisableBorrowing, thread statics and the limit of 32 bits on qubit ids; a qubit is its id.
- QubitManagement.QubitManager.Borrow: what the running operation uses must be in use, as the manager's count assumes; ManagerRuns.UsedIffInUse shows that well-scoped runs meet this.
- QubitManagement.QubitManager.BorrowSingle: likewise.
- ManagerRuns.WellScoped: qubits are released and returned by the operation that has them as locals, arguments are in use, batches succeed, and none is disabled; failed batches are QubitManagement.FailedBorrowIff.
- QArrays.Environment.Legal: the commands name arrays that exist, with indices that are not negative; the methods behind them take any index.
- Ranges.Range: a step of zero, which the source refuses when a range is made.
- Overflow of 64-bit indices, default values of element types, null storage (an empty sequence here), and garbage collection: all arrays stay live.
- Array.Sort of released qubits sorts the caller's array; here the spans are copied and sorted.
- The balancing of the sorted set: additions and removals are those of a plain search tree, while the searches hold for every tree.
- ComplexTimes.Compare: the least and greatest times are two extra values instead of the extreme floating-point numbers.
- DepthCounting.DepthCounter.OnPrimitiveOperation: durations are not negative, as configured gate times are.
- Statistics other than depth, width and start difference, and the names of operations on the call stack.
