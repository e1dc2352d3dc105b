# Genesys virtual machine in Dafny

This project models the GenesysVM of `vm.go`, a small decimal virtual machine. It has:

- 1000 memory cells and 10 registers, all unsigned 16-bit;
- a 16-bit instruction pointer;
- a 64-bit instruction counter and a 64-bit budget;
- a running flag.

Each memory cell doubles as an instruction. Its three decimal digits are:

- d1: the opcode family;
- d2 and d3: the two operands.

A step runs in this order:

1. The budget check (counter above budget).
2. The pointer check (pointer above 999).
3. The counter goes up by one.
4. The cell under the pointer is fetched. A value above 999 faults.
5. The instruction is decoded and dispatched on its family:
   - 1: halt;
   - 2: load immediate;
   - 3: add immediate;
   - 4: multiply by immediate;
   - 5: copy a register;
   - 6: add registers;
   - 7: multiply registers;
   - 8: load from memory through a register;
   - 9: store to memory through a register;
   - 0: conditional jump.

Execution steps while the machine runs. It returns the first fault, or success once the machine halts.

The project has four modules:

- `Genesys` (genesys.dfy): the pure semantics on values.
  - `Load` is `NewGenesysVM`.
  - `Decode` splits an instruction into its digits.
  - `Panic` stops the machine with a fault.
  - `Transition` is one `Step`; `Dispatch` is its `switch` on the family.
  - `Run` is `Execute`.
  - A fault is the fault kind plus a `Snapshot` of what the Go error message reports: the registers, the pointer, the counter, and the instruction or "INVALID IP".
- `Machine` (machine.dfy): the class `GenesysVM`. Its fields match the Go struct, and memory and registers are arrays updated in place. The constructor, `Panic`, `Step`, `Dispatch` and `Execute` are each proved to produce exactly the state and result of the pure semantics applied to the old state. `Model()` is that state.
- `GenesysProperties` (properties.dfy): lemmas about a single step (the order of the checks and each family's effect) and about whole runs (the range invariant, the budget bound and the counter).
- `GenesysExamples` (examples.dfy): the scenarios of `vm_test.go` proved on the semantics. Also the budget rule on a program that never halts, the effects of cells above 999, and one scenario stated on the class.

Where the code does more or less than its informal description promises, the model follows the code:

- Registers are not confined to 0..999. Family 8 copies any memory cell, and memory may hold any 16-bit value. `RegisterCanExceed999` shows this. The range invariant holds only for images whose cells are all at most 999 (`RunPreservesInRange`).
- Families 3, 4 and 6 compute in 16 bits before reducing modulo 1000. They can wrap only when a register already exceeds 999, and then only when the 16-bit sum or product reaches 65536 (`SixteenBitArithmetic`, `SixteenBitWrapIsVisible`). Family 7 multiplies in a wide integer.
- A budget of B lets B + 1 instructions execute. The budget check is `ic > ilimit`, made before the increment (`TimeoutAfterBudgetPlusOne`).
- A jump target is not checked when it is taken. The next step faults on the pointer check (`JumpTargetCheckedOnNextStep`), unless the budget is already used up, in which case it times out (`JumpOnLastBudgetTimesOut`).

## Model

| member | source | states |
|---|---|---|
| Genesys.Load | vm.go:16-28 | The image is refused exactly when it is longer than 1000 cells. Otherwise memory is the image followed by zeros, registers are zero, the pointer and counter are 0, the budget is the one given, and the machine runs. |
| Machine.GenesysVM.constructor | vm.go:16-28 | Copying the image into fresh zeroed arrays yields exactly the state `Load` describes. |
| Machine.NewGenesysVM | vm.go:16-28 | No machine exactly when the image does not fit (the panic at vm.go:19-21). Otherwise a fresh machine whose state is `Load`'s. |
| Machine.GenesysVM.GetStats | vm.go:30-32 | Returns the instruction counter and the running flag. |
| Genesys.Panic | vm.go:34-45 | Stops the machine and changes nothing else. Reports a fault of the given kind with the registers, pointer and counter. The instruction is reported exactly when the pointer is below 1000, and it is the cell under the pointer. |
| Machine.GenesysVM.Panic | vm.go:34-45 | Clears the running flag in place and returns the result `Genesys.Panic` gives for the old state. |
| Genesys.Decode | vm.go:65-67 | The three digits are each at most 9 and recompose the instruction as 100·d1 + 10·d2 + d3. |
| GenesysProperties.DecodeIsDecimalDigits | vm.go:65-67 | Decode yields a triple of digits if and only if that triple recomposes the instruction, so the decimal digits are unique. |
| Genesys.Transition | vm.go:47-134 | One step keeps the budget. It counts exactly when both guards pass. A fault stops the machine with the snapshot of the final state. A successful step that stops a running machine is a halt on cell value 100. A stopped machine stays stopped. |
| Machine.GenesysVM.Step | vm.go:47-134 | The in-place step leaves exactly the state, and returns exactly the result, that `Transition` gives for the old state. |
| Genesys.Dispatch | vm.go:69-133 | The `switch` on the family never touches the counter or the budget. A fault (only InvalidOperands or InvalidMemoryReference) only stops the machine and reports its snapshot. A successful family-1 instruction is exactly 100 and only stops the machine. Every other successful family leaves the running flag alone. |
| Machine.GenesysVM.Dispatch | vm.go:69-133 | The in-place `switch` on the family leaves exactly the state, and returns exactly the result, that the pure dispatch gives for a counted state and an instruction of at most 999. |
| GenesysProperties.BudgetCheckedFirst | vm.go:50-52 | Over budget, the step faults with ExecutionTimeout. It changes only the running flag and does not count. |
| GenesysProperties.PointerCheckedSecond | vm.go:54-56 | Within budget, a pointer above 999 faults with PointerOutOfRange. It does not count and reports no instruction. |
| GenesysProperties.CountedBeforeFetch | vm.go:58-63 | Once the guards pass, the counter goes up by one (64-bit wrap). A cell above 999 then faults with InvalidInstruction, with the count already made. |
| GenesysProperties.HaltOnlyOn100 | vm.go:70-77 | In family 1, the step succeeds exactly when the cell is 100. Either way the machine stops with the pointer unchanged. Any other value faults with InvalidOperands. |
| GenesysProperties.RegisterFamiliesWriteOnlyD2 | vm.go:78-110 | Families 2 to 7 always succeed. When families 2 to 8 succeed, they change only register d2, advance the pointer by one, count once, and leave memory alone. The value written is the immediate d3 for family 2, register d3 for family 5, and the cell addressed by register d3 for family 8. |
| GenesysProperties.StoreWritesOnlyAddressedCell | vm.go:111-119 | With an address register at most 999, family 9 succeeds. It writes register d2 into exactly the addressed cell and advances the pointer. |
| GenesysProperties.IndirectAccessFaultsOutOfRange | vm.go:102-119 | Families 8 and 9 fault if and only if the address register exceeds 999. The fault is InvalidMemoryReference, with registers, memory and pointer untouched. |
| GenesysProperties.ArithmeticResultBelow1000 | vm.go:82-101 | Families 3, 4, 6 and 7 always succeed and leave register d2 below 1000. |
| GenesysProperties.WideMultiplyFamily7 | vm.go:98-101 | Family 7 stores the full product of the two registers modulo 1000. |
| GenesysProperties.SixteenBitArithmetic | vm.go:82-97 | For any register values, families 3, 4 and 6 store the sum or product reduced modulo 65536 and then modulo 1000. |
| GenesysProperties.NoWrapAddImmediate | vm.go:82-85 | While register d2 is at most 999, family 3 gives the exact sum with the immediate modulo 1000. |
| GenesysProperties.NoWrapMultiplyImmediate | vm.go:86-89 | While register d2 is at most 999, family 4 gives the exact product with the immediate modulo 1000. |
| GenesysProperties.NoWrapAddRegisters | vm.go:94-97 | While registers d2 and d3 are at most 999, family 6 gives their exact sum modulo 1000. |
| GenesysProperties.ConditionalJump | vm.go:120-129 | Family 0 always succeeds. A zero test register advances the pointer. Otherwise the pointer becomes the target register's value. Nothing else changes but the counter. |
| GenesysProperties.JumpTargetCheckedOnNextStep | vm.go:120-129 | A jump to a target above 999 succeeds. When the budget allows one more instruction, the following step faults with PointerOutOfRange. |
| GenesysProperties.JumpOnLastBudgetTimesOut | vm.go:50-56 | A taken jump that uses the last instruction of the budget succeeds, and the following step faults with ExecutionTimeout, wherever the jump landed. |
| GenesysProperties.StepPreservesInRange | vm.go:78-129 | If every cell and register is at most 999 before a step, that still holds after it. |
| Genesys.Run | vm.go:136-148 | A run ends with the machine stopped and the budget kept. A run that succeeds from a running machine ends on a halt at cell value 100. A faulting run reports the snapshot of its final state. A machine that is not running is returned unchanged with success. |
| Machine.GenesysVM.Execute | vm.go:136-148 | The in-place loop leaves exactly the state, and returns exactly the result, that `Run` gives for the old state. |
| GenesysProperties.RunPreservesInRange | vm.go:136-148 | The range invariant holds at the end of a whole run. |
| GenesysProperties.TimeoutAfterBudgetPlusOne | vm.go:50-58 | A run never counts past budget + 1. A run stopped by the budget has counted exactly budget + 1 instructions. |
| GenesysProperties.RunCounterNeverDecreases | vm.go:58 | The counter never decreases over a run. |
| GenesysProperties.RunOnStep | vm.go:143-145 | After a successful step, the run continues from the next state. |
| GenesysExamples.ZeroCellsWalkToEnd | vm.go:120-129 | Given enough budget for the remaining cells, over zero cells with register 0 at zero, the pointer walks to 1000, counting once per cell, then faults on the pointer. |
| GenesysExamples.EmptyImageOnTheClass | vm_test.go:10-17 | The same scenario on the class: a machine built from an empty image with budget 2000 and executed returns PointerOutOfRange, with counter and pointer at 1000 and the machine stopped. |
| GenesysExamples.EmptyImageStopsAt1000 | vm_test.go:10-17 | An empty image with budget 2000 faults with PointerOutOfRange, with counter and pointer at 1000. |
| GenesysExamples.HaltWithOperandsFaults | vm_test.go:19-22 | The image [123] faults with InvalidOperands after one count. |
| GenesysExamples.UndecodableCellFaults | vm_test.go:24-27 | The image [9999] faults with InvalidInstruction after one count and reports 9999. |
| GenesysExamples.HaltAtOnce | vm_test.go:31-38 | The image [100] halts with counter 1 and pointer 0. |
| GenesysExamples.AddSampleHalts | vm_test.go:70-102 | [356, 343, 359, 329, 100] halts after five instructions with registers 5, 4 and 2 at 15, 3 and 9. This run leaves register 2 unaltered between steps; the test's step with register 2 set to 997 is `AddImmediateReducesModulo1000`. |
| GenesysExamples.AddImmediateReducesModulo1000 | vm_test.go:92-96 | 329 applied to 997 leaves 6. |
| GenesysExamples.MultiplyRegistersWide | vm_test.go:215-217 | 798 with both registers at 999 leaves 1. |
| GenesysExamples.JumpScenario | vm_test.go:298-324 | [11, 0, 9, 100] jumps to 2, falls through to 3 and halts there after three counts. |
| GenesysExamples.Sample1CountsSixteen | vm_test.go:326-340 | The sample program halts after exactly 16 instructions. |
| GenesysExamples.Sample1Countdown | vm_test.go:327 | Given a budget of at least 2c more instructions, the two-cell loop of the sample, with counter value c, halts after 2c + 1 more instructions. |
| GenesysExamples.EndlessLoopStopsAtBudgetPlusOne | vm.go:50-58 | A two-instruction endless loop stops with ExecutionTimeout after exactly budget + 1 instructions. |
| GenesysExamples.BudgetAllowsOneExtraInstruction | vm.go:50-58 | For every budget B below the 64-bit maximum, the image [201, 10] times out with counter B + 1. |
| GenesysExamples.RegisterCanExceed999 | vm.go:102-110 | Family 8 loads the cell value 9999 into a register. |
| GenesysExamples.SixteenBitWrapIsVisible | vm.go:82-85 | Adding 1 to a register holding 65535 wraps to 0 before the reduction modulo 1000. |

## Left out

- main.go is not part of this model. It reads program images from a text stream, runs them and prints the outcomes; all of that is I/O.
- The text of the error messages built by `fmt.Errorf` is not modelled. A fault carries its kind and a `Snapshot` of the values the message prints.
- Go's `panic`/`recover` between `Panic`, `Step` and `Execute` is not modelled. `Panic` and `Step` return a `StepResult` instead, and `Execute` returns the first fault.
- The `default` branch of the `switch` in `Step` (vm.go:131-132) is not modelled. It cannot be reached because `Decode` yields d1 ≤ 9.
- Genesys.Run: requires a budget below 2^64 − 1. At that budget the counter can wrap to 0, and a program that never halts then runs forever in Go, which a terminating Dafny function cannot express. `Transition` and `Step` do model the 64-bit wrap of the counter.
- Machine.GenesysVM.Execute: requires a budget below 2^64 − 1, for the same reason as `Run`.
- Machine.GenesysVM.constructor: requires an image of at most 1000 cells. The refusal of a longer image (Go's panic) is modelled by `NewGenesysVM` returning no machine.
- Genesys.Transition: family 7 assumes Go's `int` is 64 bits wide, as on every 64-bit platform. On a 32-bit platform, a product of two registers above 46340 would overflow.
- The per-register scenarios of vm_test.go are not written out as concrete runs: Test_SetRegister, Test_MulRbyN, Test_MulRtoR (of which only the last step is `MultiplyRegistersWide`), Test_MovRtoR, Test_AddRtoR, Test_MoveMemToR and Test_MoveRToMem. The value each family writes is stated for every input instead, by `RegisterFamiliesWriteOnlyD2` (families 2, 5, 8), `SixteenBitArithmetic` (3, 4, 6), `WideMultiplyFamily7` and `StoreWritesOnlyAddressedCell` (9).
