# Advent of Code 2019 in Dafny: the Intcode machine and the puzzles around it

This project models the Rust solutions in nathanjhaveri/advent-of-code-2019 and proves properties of the model. At its centre is the shared Intcode virtual machine of `intcode/src/lib.rs`, which appears in two forms:

- as values (`IntcodeDecode`, `IntcodeMachine`): instruction decoding with `parse_op`, `nth_digit` and the parameter modes, one function per instruction, a single-step function, and `compute_output` and `run` as functions;
- as the class `Intcode.IntCode`: the memory is an `array`, the instruction pointer, input cursor and relative base are fields, and the input and output vectors are `seq` fields. Its methods are proved to follow the value semantics step for step.

`IntcodeProperties` and `IntcodeExamples` state what the machine promises: what each instruction writes and reads, which faults are possible, what a run logs, and the behaviour of the small programs in the source's tests.

The puzzle solutions are modelled one module per source file:

| module | source | puzzle |
|---|---|---|
| `MassCalc` | 1/masscalc/src/main.rs | fuel for module masses |
| `Alarm` | 2/src/main.rs, two/src/main.rs | the first add/multiply machine and the 1202 restore |
| `Wires` | 3/src/main.rs | crossed wires: parsing a wire into segments |
| `Password` | 4/src/main.rs | six-digit passwords with doubled, never-decreasing digits |
| `Diagnostic` | 5/src/main.rs | the 32-bit machine with positional and immediate modes and I/O closures |
| `Orbits` | 6/orbit/src/lib.rs | the orbit map, orbit counts and the transfers to Santa |
| `Amplifiers` | 7/src/lib.rs | amplifier chains, the feedback ring and the phase-setting search |
| `SpaceImage` | 8/src/lib.rs | layered images, layer checksums and rendering |
| `Points` | 10/src/points.rs | integer geometry: collinearity and lying between two points |
| `AsteroidMap` | 10/src/lib.rs | reading the asteroid grid into points |
| `Painting` | 11/src/lib.rs | the hull-painting robot |
| `Moons` | 12/src/lib.rs | the moon simulation and its energy |
| `Reactions` | 14/src/lib.rs | reaction tables, ORE per FUEL and FUEL per ORE |
| `Maze` | 15/src/lib.rs | the repair droid's breadth-first search for the oxygen system |
| `Fft` | 16/src/lib.rs | the flawed frequency transmission |
| `Shuffle` | 22/src/lib.rs | the space-card shuffle and tracking one card through it |

Helper modules stand in for the parts of Rust's library the solutions use:

- `RustInt`: `/` and `%` truncating toward zero, and `nth_digit`;
- `Text`: splitting, trimming and integer parsing, with parse errors as values;
- `Seqs`: sums and reversal;
- `Wrappers`: `Option` and `Result`.

The model follows the code. Where Rust panics, the model either returns an error value (`Result`, `Option`, or a machine `Crash` signal carrying a `Fault`) or requires that the panic cannot happen; each member that uses a precondition is listed below.

In day 12, `gravity` compares the two moons' positions on each axis. When the first moon's position is smaller, it lowers the first moon's velocity and raises the second's, and the other way round when the second's is smaller. `Moons` models these branches as written.

Loops that need not terminate in the source take an explicit bound in the model: `fuel`, `steps`, `rounds` or `turns`. Running out of the bound is its own outcome and is never confused with a result.

## Model

| member | source | states |
|---|---|---|
| IntcodeDecode.Discriminant | intcode/src/lib.rs:19-24 | the enum discriminant of an addressing mode is 0, 1 or 2 |
| IntcodeDecode.ModeFrom | intcode/src/lib.rs:26-35 | a mode digit is accepted exactly when it is 0, 1 or 2, and the accepted mode has that digit as discriminant; any other digit is the invalid-mode panic |
| IntcodeDecode.ParseOp | intcode/src/lib.rs:40-47 | a cell decodes exactly when its decimal digits 2, 3 and 4 are valid mode digits; the opcode is the cell's truncating remainder by 100 and each mode's discriminant is the matching digit |
| IntcodeDecode.DigitsOfCell | intcode/src/lib.rs:40-47 | an opcode below 100 plus mode digits times 100, 1000 and 10000 yields back that opcode and those digits |
| IntcodeDecode.DecodeEncode | intcode/src/lib.rs:40-47 | decoding inverts encoding for every instruction with an opcode below 100 |
| IntcodeDecode.ModeRoundTrip | intcode/src/lib.rs:26-35 | the digit of a mode selects that mode again |
| IntcodeDecode.EncodeDecode | intcode/src/lib.rs:40-47 | every decodable cell in 0..99999 is the encoding of its decoded instruction |
| IntcodeDecode.DecodeExamples | intcode/src/lib.rs:360-376 | 109 decodes to adjust-relative-base with an immediate first parameter, the digits of 43210 are 0..4, and 301 is an invalid mode |
| RustInt.NthDigit | intcode/src/lib.rs:212-214 | `(number / 10^n) % 10` with truncating operators lies strictly between -10 and 10 and has the sign of the number |
| RustInt.NthDigitOfNatural | intcode/src/lib.rs:212-214 | for a non-negative number the digit is the ordinary `(x / 10^n) % 10` |
| RustInt.TruncRem | intcode/src/lib.rs:41 | Rust's `%` by a positive divisor: dividend = divisor * quotient + remainder, the remainder taking the sign of the dividend |
| IntcodeMachine.Init | intcode/src/lib.rs:64-73 | a fresh machine holds the given memory, ip 0, relative base 0, no input and no output |
| IntcodeMachine.Input | intcode/src/lib.rs:75-77 | queuing an input appends it to the input log and changes nothing else |
| IntcodeMachine.LastOutput | intcode/src/lib.rs:79-81 | the last output exists exactly when something was output, and it is the final element of the output log; otherwise the no-output panic |
| IntcodeMachine.Load | intcode/src/lib.rs:200 | a read succeeds exactly for an address inside memory and yields that cell; otherwise a bad-address fault |
| IntcodeMachine.Store | intcode/src/lib.rs:110 | a write succeeds exactly for an address inside memory, sets that cell and leaves the length and every other cell unchanged |
| IntcodeMachine.ResolveOp | intcode/src/lib.rs:199-209 | a positional parameter reads the cell it addresses, an immediate parameter is its own value, a relative parameter reads relative-base plus parameter |
| IntcodeMachine.OpPtr | intcode/src/lib.rs:190-197 | the write target is the parameter (positional), the parameter cell itself (immediate) or relative-base plus parameter (relative); it fails only when the parameter cell is outside memory |
| IntcodeMachine.RunOutput | intcode/src/lib.rs:87-89 | `run` keeps calling `compute_output` from where an output left the machine and stops at the first call that does not output |
| IntcodeMachine.ParseTokens | intcode/src/lib.rs:218-221 | the cells parse exactly when every token parses, one cell per token, each the token's value |
| IntcodeMachine.InitOps | intcode/src/lib.rs:216-228 | the program parses exactly when every comma-separated cell does; the memory starts with those cells and is zero-padded to 1500 cells (a longer program is not padded) |
| Intcode.IntCode.constructor | intcode/src/lib.rs:64-73 | the new machine's state is the fresh machine over the given memory, in a newly allocated array |
| Intcode.IntCode.Input | intcode/src/lib.rs:75-77 | the machine's new state is the old one with the value appended to its input |
| Intcode.IntCode.LastOutput | intcode/src/lib.rs:79-81 | returns the last element of the output log, or the no-output fault |
| Intcode.IntCode.Fetch | intcode/src/lib.rs:93 | returns the memory cell at the address, or a bad-address fault outside memory |
| Intcode.IntCode.Resolve | intcode/src/lib.rs:199-209 | returns the value the parameter denotes in its mode, as `IntcodeMachine.ResolveOp` defines it |
| Intcode.IntCode.Pointer | intcode/src/lib.rs:190-197 | returns the write target the parameter denotes in its mode, as `IntcodeMachine.OpPtr` defines it |
| Intcode.IntCode.Write | intcode/src/lib.rs:110 | writes one memory cell in place when the address is inside memory; otherwise memory is unchanged and the result is a bad-address fault |
| Intcode.IntCode.ExecBinary | intcode/src/lib.rs:102-121 | add, multiply, less-than and equals move the machine exactly as `IntcodeMachine.Binary` says; a fault leaves the machine unchanged |
| Intcode.IntCode.ExecInput | intcode/src/lib.rs:122-131 | the input instruction consumes the next unread input into the target cell, or faults on an immediate target or exhausted input, leaving the machine unchanged |
| Intcode.IntCode.ExecOutput | intcode/src/lib.rs:132-137 | the output instruction appends the parameter's value to the output log and reports it |
| Intcode.IntCode.ExecJump | intcode/src/lib.rs:138-157 | jump-if-true and jump-if-false set ip to the second parameter when the first is non-zero (resp. zero), and otherwise step over the instruction |
| Intcode.IntCode.ExecAdjust | intcode/src/lib.rs:180-184 | adjust-relative-base adds the parameter's value to the relative base |
| Intcode.IntCode.Execute | intcode/src/lib.rs:92-186 | one iteration of the instruction loop moves the machine exactly as `IntcodeMachine.Step` says, halting on 99 and faulting on an unknown opcode |
| Intcode.IntCode.ComputeOutput | intcode/src/lib.rs:91-188 | the in-place loop ends in the state and with the signal (output, halt, fault) of `IntcodeMachine.ComputeOutput` |
| Intcode.IntCode.Run | intcode/src/lib.rs:87-89 | calling `compute_output` until it stops outputting ends in the state and signal of `IntcodeMachine.Run` |
| Intcode.New | intcode/src/lib.rs:59-62 | building a machine from program text fails exactly when the text does not parse; otherwise it is the fresh machine over the parsed memory |
| Intcode.InitOps | intcode/src/lib.rs:216-228 | the parse-then-pad loops compute `IntcodeMachine.InitOps` |
| Intcode.ParseCells | intcode/src/lib.rs:218-221 | the parsing loop returns the first parse error or all cells, as `IntcodeMachine.ParseTokens` |
| Intcode.Pad | intcode/src/lib.rs:223-225 | padding keeps the cells as a prefix, reaches 1500 cells (or keeps a longer program as it is) and adds only zeros |
| IntcodeProperties.StepFrame | intcode/src/lib.rs:91-188 | a step keeps the memory size and the input queue, consumes at most one input, keeps the input cursor inside the queue, and appends to the output log exactly the value it emits |
| IntcodeProperties.StepLength | intcode/src/lib.rs:95-184 | add, multiply, less-than and equals occupy four cells; input, output and adjust-relative-base two; halt one, and halting changes nothing but ip |
| IntcodeProperties.JumpTarget | intcode/src/lib.rs:138-157 | a jump goes to its second parameter exactly when its condition holds on the first, and past its three cells otherwise, changing nothing else |
| IntcodeProperties.InputConsumed | intcode/src/lib.rs:122-131 | only the input instruction advances the input cursor, and it stores the oldest unread input at its target address |
| IntcodeProperties.BinaryStores | intcode/src/lib.rs:102-121 | in every addressing mode, add, multiply, less-than and equals succeed exactly when both operands resolve and the target lies in memory; they then store the sum, product or comparison at the target, leave every other cell as it was, and move ip past their four cells |
| IntcodeProperties.OutputEmits | intcode/src/lib.rs:132-137 | in every addressing mode, output succeeds exactly when its parameter resolves; it then emits that value, appends it to the output log, and leaves memory, input and relative base unchanged |
| IntcodeProperties.AdjustMovesBase | intcode/src/lib.rs:180-184 | in every addressing mode, adjust-relative-base succeeds exactly when its parameter resolves; it then moves the relative base by that value and leaves memory, input and output unchanged |
| IntcodeProperties.Events | intcode/src/lib.rs:97-99 | output is the only instruction that emits a value, and 99 the only one that halts |
| IntcodeProperties.RelativeBase | intcode/src/lib.rs:180-184 | only adjust-relative-base moves the relative base, by the value of its parameter |
| IntcodeProperties.Faults | intcode/src/lib.rs:93-185 | an ip outside memory, an unknown opcode, an immediate input target and an exhausted input each make the step fail with that fault |
| IntcodeProperties.ComputeOutputLog | intcode/src/lib.rs:91-188 | `compute_output` keeps the memory size and the input queue, and its output log grows by exactly the value it returns (and not at all when it halts or faults) |
| IntcodeProperties.RunLog | intcode/src/lib.rs:87-89 | `run` never stops on an output, only appends to the output log, and keeps the input queue and memory size |
| IntcodeProperties.HaltIsNotSticky | intcode/src/lib.rs:95-99 | since ip moves past the 99 before returning, a second `compute_output` after a halt runs the following instructions (`99,104,7,99` halts, then outputs 7) |
| IntcodeExamples.StepInput | intcode/src/lib.rs:122-131 | a positional input instruction stores the next unread input at the addressed cell and advances ip by 2 and the input cursor by 1 |
| IntcodeExamples.StepEquals | intcode/src/lib.rs:169-179 | a positional equals instruction stores 1 or 0 as its two addressed cells are equal or not, and advances ip by 4 |
| IntcodeExamples.StepAdd | intcode/src/lib.rs:102-111 | a positional add stores the sum of its two addressed cells and advances ip by 4 |
| IntcodeExamples.StepMultiplyImmediate | intcode/src/lib.rs:112-121 | a multiply with an immediate second parameter stores the addressed cell times that literal |
| IntcodeExamples.StepOutput | intcode/src/lib.rs:132-137 | a positional output emits the addressed cell and appends it to the output log |
| IntcodeExamples.StepHalt | intcode/src/lib.rs:97-99 | 99 halts and moves ip past itself |
| IntcodeExamples.EqualsEight | intcode/src/lib.rs:280-290 | the program `3,9,8,9,10,9,4,9,99,-1,8`, padded to 1500 cells, halts with the single output 1 when the input is 8 and 0 for any other input |
| IntcodeExamples.EqualsEightRun | intcode/src/lib.rs:249-255 | the same run on the 1500-cell memory `IntCode::new` builds from that program |
| IntcodeExamples.CompareImmediate | intcode/src/lib.rs:292-308 | the tests `equal_8_immediate` and `input_less_than_8`: the programs `3,3,1108,-1,8,3,4,3,99` and `3,3,1107,-1,8,3,4,3,99` halt with the single output 1 when the input equals 8 (or is below 8) and 0 otherwise, for every input |
| IntcodeExamples.LargeProduct | intcode/src/lib.rs:346-351 | the test `nine_example_2`: `1102,34915192,34915192,7,4,7,99,0` halts with the single output 34915192 × 34915192 |
| IntcodeExamples.LargeLiteral | intcode/src/lib.rs:353-358 | the test `nine_example_3`: `104,1125899906842624,99` halts with the single output 1125899906842624 |
| IntcodeExamples.Quine | intcode/src/lib.rs:329-344 | the test `nine_example_1`: `run` on the program `109,1,204,-1,1001,100,1,100,1008,100,16,101,1006,101,0,99`, padded to 1500 cells, halts with its output log equal to the program's own sixteen cells, for any budget of at least five instructions per call |
| IntcodeExamples.QuineRun | intcode/src/lib.rs:87-89 | `run` on the loaded program makes seventeen calls of `compute_output`: sixteen that output, then one that halts, leaving the program's first sixteen cells as the log |
| IntcodeExamples.QuineFirst | intcode/src/lib.rs:91-137 | the first call moves the relative base from 0 to 1, then outputs cell 0 through the relative parameter -1 |
| IntcodeExamples.QuineRound | intcode/src/lib.rs:91-184 | every round before the last adds 1 to the count in cell 100, stores 0 in cell 101 because the count is below 16, jumps back to 0, moves the base up by 1 and outputs the next cell of the program |
| IntcodeExamples.QuineLast | intcode/src/lib.rs:91-184 | the sixteenth round counts to 16, stores 1 in cell 101, falls through the jump and halts on the 99, with all sixteen cells output |
| IntcodeExamples.RunCalls | intcode/src/lib.rs:87-89 | `run` through a chain of machines, each of whose calls outputs and stops in the next one, ends as the last call does when that call does not output |
| IntcodeExamples.DecodedQuine | intcode/src/lib.rs:40-47 | 109 decodes as an immediate base adjustment, 204 as a relative output, and 1001, 1006 and 1008 as add, jump-if-false and equals with a positional first and an immediate second parameter |
| IntcodeExamples.StepAdjustImmediate | intcode/src/lib.rs:180-184 | `109,k` adds k to the relative base and advances ip by 2, changing nothing else |
| IntcodeExamples.StepOutputRelative | intcode/src/lib.rs:132-137 | `204,k` emits the cell k past the relative base, appends it to the output log and advances ip by 2 |
| IntcodeExamples.StepPositionalImmediate | intcode/src/lib.rs:102-111 | an add, multiply, less-than or equals with a positional first and an immediate second parameter stores its result at the addressed cell and advances ip by 4 |
| IntcodeExamples.StepJumpIfFalse | intcode/src/lib.rs:148-157 | `1006,p,k` jumps to k when cell p is 0 and otherwise moves ip past its three cells |
| MassCalc.FuelNeeded | 1/masscalc/src/main.rs:23-25 | the fuel is a third of the mass truncated toward zero, minus two: bracketed by the mass from both sides for either sign, and less than any positive mass |
| MassCalc.FuelChainBounds | 1/masscalc/src/main.rs:11-15 | the fuel added for one module is never negative, is zero exactly when the first requirement is not positive, and is at least that requirement |
| MassCalc.ModuleFuel | 1/masscalc/src/main.rs:11-15 | the inner loop adds exactly every positive requirement of the fuel-for-fuel chain |
| MassCalc.TotalFuel | 1/masscalc/src/main.rs:8-16 | the outer loop sums the module fuel of every mass, and the total is never negative |
| Alarm.Cell | 2/src/main.rs:15 | reading a cell succeeds exactly inside the vector and yields that cell; past the end it is the index panic |
| Alarm.Operate | 2/src/main.rs:22-26 | the value to store exists exactly for opcode 1 or 2 with both operand addresses inside memory, and is their sum or product |
| Alarm.Step | 2/src/main.rs:18-28 | an instruction executes exactly when it is add or multiply with all three parameter cells and the addresses they name inside memory; it keeps the length, writes the sum or product at the third parameter's address and leaves every other cell unchanged |
| Alarm.Run | 2/src/main.rs:8-32 | a run that ends normally keeps the length of memory |
| Alarm.HaltsAt | 2/src/main.rs:15-17 | a 99 at ip stops the run before anything executes, memory unchanged (also at ip 0) |
| Alarm.UnknownOpcodePanics | 2/src/main.rs:22-26 | an opcode other than 1, 2 and 99 panics: with the unrecognised-instruction panic when its three parameter cells exist, with an index panic otherwise |
| Alarm.EndsOnHalt | 2/src/main.rs:17-30 | a run that ends normally ends on a 99 reached from the start ip in whole four-cell steps |
| Alarm.Fetch | 2/src/main.rs:18-20 | indexing the vector returns the cell or the index panic, as `Cell` |
| Alarm.Execute | 2/src/main.rs:18-28 | the loop body writes memory in place exactly as `Step`, or reports `Step`'s panic |
| Alarm.Compute | 2/src/main.rs:8-32 | the in-place loop, advancing ip by 4 per instruction, ends with the memory `Run` computes from ip 0, or with its panic |
| Alarm.Restore1202 | two/src/main.rs:42-45 | cell 1 is set to 12 and cell 2 to 2, then memory ends as `Run` of that patched memory; memory shorter than three cells panics on the patch |
| Diagnostic.Discriminant | 5/src/main.rs:16-19 | the discriminant of a mode is 0 or 1 |
| Diagnostic.ModeFrom | 5/src/main.rs:21-29 | a mode digit is accepted exactly when it is 0 or 1, and the mode has that digit as discriminant; any other digit is the invalid-mode panic |
| Diagnostic.ParseOp | 5/src/main.rs:34-41 | a cell decodes exactly when its digits 2, 3 and 4 are each 0 or 1, whatever the opcode; the opcode is digit 0 plus ten times digit 1, and each mode matches its digit |
| Diagnostic.OpcodeOfCell | 5/src/main.rs:35 | for a non-negative cell the opcode is the cell modulo 100; a negative cell has a non-positive opcode, which names no instruction |
| Diagnostic.EncodedDigits | 5/src/main.rs:34-41 | an encoded instruction's digits read back as its opcode and its three mode digits |
| Diagnostic.DecodeEncode | 5/src/main.rs:34-41 | decoding inverts encoding for every instruction with an opcode below 100 |
| Diagnostic.Load | 5/src/main.rs:62 | indexing memory succeeds exactly inside it (a negative index is a huge `usize` and panics) |
| Diagnostic.ResolveOp | 5/src/main.rs:43-48 | an immediate parameter is the cell at the index, a positional one the cell that cell points at |
| Diagnostic.PositionalIsIndirect | 5/src/main.rs:43-48 | a positional parameter denotes what an immediate parameter in the cell it points at denotes |
| Diagnostic.StoreAt | 5/src/main.rs:79 | a write that succeeds stores exactly one cell, inside memory |
| Diagnostic.Binary | 5/src/main.rs:71-90 | add, multiply, less-than and equals that succeed store exactly one cell inside memory |
| Diagnostic.InputOp | 5/src/main.rs:91-95 | an input that succeeds stores exactly one cell inside memory |
| Diagnostic.Execute | 5/src/main.rs:66-144 | whatever instruction executes, any store it makes lies inside memory |
| Diagnostic.Evaluate | 5/src/main.rs:61-145 | one pass of the loop never plans a store outside memory |
| Diagnostic.HaltsOn99 | 5/src/main.rs:66-68 | `compute` returns, changing nothing, exactly when the cell at ip decodes to opcode 99 |
| Diagnostic.UnknownOpcodePanics | 5/src/main.rs:143 | an opcode outside 1..8 and 99 panics with that opcode |
| Diagnostic.StepAdvances | 5/src/main.rs:61-142 | ip moves by four for add, multiply, less-than and equals, by two for input and output; a jump goes to its second operand when taken and three cells on otherwise |
| Diagnostic.BinaryAdvances | 5/src/main.rs:71-90 | the four-cell instructions move ip past their three parameters |
| Diagnostic.InputOutputAdvances | 5/src/main.rs:91-100 | input and output move ip past their one parameter |
| Diagnostic.JumpAdvances | 5/src/main.rs:101-120 | a jump goes to its second operand exactly when its condition on the first holds, and past its parameters otherwise |
| Diagnostic.StepInputOutput | 5/src/main.rs:91-100 | input and output ignore their mode digit; input calls `read` once and stores its value at the address in the parameter cell; output gives `write` the cell at that address once; no other instruction calls either, and output and jumps leave memory alone |
| Diagnostic.StepStores | 5/src/main.rs:76-79 | add, multiply, less-than and equals store their result at the address in the third parameter cell, ignoring its mode digit |
| Diagnostic.RunExtends | 5/src/main.rs:50-146 | over a run that does not panic, `read` is called in order, the `write` log only grows and memory keeps its size |
| Diagnostic.RunNext | 5/src/main.rs:61-64 | one loop pass that leads to a machine leaves the rest of the run to that machine |
| Diagnostic.PerformInPlace | 5/src/main.rs:79 | carrying out an effect in place gives the memory, registers and log `Perform` describes |
| Diagnostic.Advance | 5/src/main.rs:61-145 | one in-place pass of the loop reports the panic, returns with memory unchanged on 99, or leaves exactly the next machine of `Step` |
| Diagnostic.Compute | 5/src/main.rs:50-146 | the in-place loop from ip 0 ends as `Run` says, and unless it panics the array holds that run's final memory |
| Diagnostic.ParseCell | 5/src/main.rs:155 | a piece parses as an integer exactly when `str::parse` accepts it untrimmed, else the parse error names the piece |
| Diagnostic.InitOps | 5/src/main.rs:152-160 | the push loop parses every comma-separated piece in order, stops at the first error, and adds no padding |
| Diagnostic.CellsShowCells | 5/src/main.rs:152-160 | the comma-joined decimal text of any non-empty program parses back to that program |
| Diagnostic.DecodesPositional | 5/src/main.rs:34-41 | a cell below 100 is its own opcode with all three modes positional |
| Diagnostic.StepInput | 5/src/main.rs:91-95 | `3,p` stores the next value of `read` at cell p and moves ip by 2 |
| Diagnostic.StepEquals | 5/src/main.rs:132-142 | `8,p,q,r` stores at cell r whether cells p and q are equal, and moves ip by 4 |
| Diagnostic.StepOutput | 5/src/main.rs:96-100 | `4,p` gives `write` cell p and moves ip by 2 |
| Diagnostic.StepHalt | 5/src/main.rs:66-68 | `99` makes `compute` return |
| Diagnostic.EqualsEightOutputsOne | 5/src/main.rs:175-184 | with `read` answering 8, "3,9,8,9,10,9,4,9,99,-1,8" writes exactly 1 and returns after four instructions |
| Amplifiers.ContainsAll | 7/src/lib.rs:51-58 | the `contains_all &=` loop over lo..hi returns true exactly when every value of the range occurs in the setting |
| Amplifiers.ValidPhaseSetting | 7/src/lib.rs:51-58 | true exactly when each of 0..4 occurs in the setting |
| Amplifiers.ValidFeedbackPhaseSetting | 7/src/lib.rs:60-67 | true exactly when each of 5..9 occurs in the setting |
| Amplifiers.ElementsCard | 7/src/lib.rs:51-58 | a sequence has at most as many distinct values as elements, and fewer when one repeats |
| Amplifiers.ValidIsPermutation | 7/src/lib.rs:51-67 | a valid setting of five is a permutation of its range: every value in range and none twice |
| Amplifiers.Handed | 7/src/lib.rs:45 | an amplifier hands on a signal exactly when its machine output one, and that output is the signal (`expect("no output")` otherwise) |
| Amplifiers.ChainStops | 7/src/lib.rs:37-46 | once one amplifier of the chain fails, the whole chain fails with the same fault |
| Amplifiers.AmplifyOnce | 7/src/lib.rs:38-45 | one amplifier is a fresh machine over a copy of the program, given its phase then the incoming signal, run to its first output |
| Amplifiers.ThrusterSignal | 7/src/lib.rs:35-49 | amplifier i gets its phase and then the previous amplifier's output, the first one 0; the result is the last amplifier's output, as `Chain` over all five |
| Amplifiers.Primed | 7/src/lib.rs:74-76 | before any signal, amplifier i is the fresh machine with only phase i queued |
| Amplifiers.Circulate | 7/src/lib.rs:78-84 | the ring, when it stops, still holds five machines |
| Amplifiers.CirculateKeepsPhases | 7/src/lib.rs:73-84 | every amplifier's phase is queued before any signal: no turn of the ring disturbs the head of any input queue |
| Amplifiers.CirculateOutput | 7/src/lib.rs:79-83 | a turn that outputs changes only the amplifier whose turn it is, and passes its output to the next amplifier modulo 5 |
| Amplifiers.CirculateHalt | 7/src/lib.rs:79-82 | a turn that ends without output stops the ring, keeping that amplifier's final state |
| Amplifiers.PrimedPhases | 7/src/lib.rs:74-76 | primed machines hold exactly their own phase as input |
| Amplifiers.MakeAmps | 7/src/lib.rs:71 | five fresh, separate machines over the parsed program, or none when the program does not parse |
| Amplifiers.Prime | 7/src/lib.rs:74-76 | the priming loop leaves the five machines as `Primed` |
| Amplifiers.TakeTurn | 7/src/lib.rs:80-82 | the amplifier at `index` is given the signal and runs to its next output or halt; the other four are unchanged |
| Amplifiers.RingTurn | 7/src/lib.rs:79-84 | one pass of the ring loop either hands the signal to the next amplifier modulo 5 or stops with the ring's outcome |
| Amplifiers.Ring | 7/src/lib.rs:78-84 | the `while let` loop from amplifier 0 with signal 0 leaves the machines as `Circulate` says, or reports its fault |
| Amplifiers.FeedbackSignal | 7/src/lib.rs:69-87 | `feedback` is the last output of amplifier 4 once the ring stops; a malformed program is an error |
| Amplifiers.Digits | 7/src/lib.rs:13-17 | the values of the innermost loop variables on an iteration all lie in the loop range |
| Amplifiers.Setting | 7/src/lib.rs:18 | every tested setting has five values |
| Amplifiers.DigitsIndex | 7/src/lib.rs:13-17 | every sequence of values in the range is reached by the nested loops, on the iteration its base-5 digits spell |
| Amplifiers.SettingCovers | 7/src/lib.rs:13-18 | the five nested loops go through every setting of five values in the range |
| Amplifiers.SearchNext | 7/src/lib.rs:19-24 | one more iteration of the loops is that iteration's setting considered against the best so far |
| Amplifiers.SearchStops | 7/src/lib.rs:19-24 | once a score fails, the search keeps that fault |
| Amplifiers.SearchFindsMax | 7/src/lib.rs:9-33 | a search without faults has scored every valid setting it passed, none above the signal found; the result is (0, [0;5]) when nothing beat 0, and otherwise the first valid setting in loop order reaching the maximum |
| Amplifiers.SearchFault | 7/src/lib.rs:19-20 | a failing search fails with the fault of a valid setting it scored |
| Amplifiers.BestOfAll | 7/src/lib.rs:9-33 | no valid setting scores more than the signal the whole search returns |
| Amplifiers.ChainIteration | 7/src/lib.rs:18-25 | one iteration of `find_max_phase_setting`'s loops checks, scores and compares setting n as the search says |
| Amplifiers.FindMaxPhaseSetting | 7/src/lib.rs:9-33 | the nested loops compute the search over settings of 0..4 scored by the chain |
| Amplifiers.FeedbackIteration | 7/src/lib.rs:98-105 | one iteration of `find_max_feedback_phase_setting`'s loops checks, scores and compares setting n |
| Amplifiers.FeedbackScoreAt | 7/src/lib.rs:100 | the ring's score of a setting is `feedback` on the parsed program, or the parse error |
| Amplifiers.FindMaxFeedbackPhaseSetting | 7/src/lib.rs:89-113 | the nested loops compute the search over settings of 5..9 scored by the ring |
| AmplifierExamples.DecodesExample | 7/src/lib.rs:123 | the example's instruction cells decode as input, input, multiply by an immediate, add and output |
| AmplifierExamples.ReadsBoth | 7/src/lib.rs:39-43 | the example stores the first input (the phase) in cell 15 and the second (the signal) in cell 16 |
| AmplifierExamples.Scales | 7/src/lib.rs:123 | `1002,16,10,16` multiplies the signal by ten |
| AmplifierExamples.Adds | 7/src/lib.rs:123 | `1,16,15,15` adds the phase |
| AmplifierExamples.Emits | 7/src/lib.rs:123 | `4,15` outputs ten times the signal plus the phase |
| AmplifierExamples.Runs | 7/src/lib.rs:45 | five instructions from the start an example amplifier outputs ten times its signal plus its phase |
| AmplifierExamples.Computes | 7/src/lib.rs:45 | once both inputs are stored, three instructions later that value is output |
| AmplifierExamples.ExampleLoaded | 7/src/lib.rs:123-124 | a memory starting with the example's 17 cells holds its instructions |
| AmplifierExamples.AmplifyExample | 7/src/lib.rs:38-45 | one amplifier over the example outputs ten times its signal plus its phase |
| AmplifierExamples.ChainSpells | 7/src/lib.rs:35-49 | on the example the chain of the first k amplifiers outputs the first k phases read as a decimal number |
| AmplifierExamples.SpellFive | 7/src/lib.rs:125 | five digits read as a decimal number |
| AmplifierExamples.Example1 | 7/src/lib.rs:121-130 | `thruster_signal` on the example with phases [4,3,2,1,0] is 43210 |
| AmplifierExamples.SpellBound | 7/src/lib.rs:132-143 | a valid setting of 0..4 spells at most 43210, and only [4,3,2,1,0] spells it |
| AmplifierExamples.Example1Find | 7/src/lib.rs:132-143 | the search over all settings of the example returns 43210 with the setting [4,3,2,1,0] |
| AmplifierExamples.Valid43210 | 7/src/lib.rs:137 | [4,3,2,1,0] is a valid setting |
| AmplifierExamples.ScoreSpells | 7/src/lib.rs:19-20 | on the example every setting scores its decimal spelling |
| AmplifierExamples.NoFault | 7/src/lib.rs:9-33 | the search over the example meets no fault |
| Painting.Code | 11/src/lib.rs:10-14 | a colour's discriminant is 0 or 1 |
| Painting.ColorFrom | 11/src/lib.rs:16-26 | `Color::try_from` succeeds exactly on 0 and 1, and the colour's code is the input |
| Painting.ColorCodeRoundTrip | 11/src/lib.rs:16-26 | reading back a colour's code gives the colour |
| Painting.TurnFrom | 11/src/lib.rs:33-43 | 0 is counter-clockwise, 1 clockwise, anything else the error |
| Painting.Bearing | 11/src/lib.rs:45-50 | each direction has a compass bearing in 0..3 |
| Painting.Rotate | 11/src/lib.rs:75-88 | a clockwise turn adds one quarter to the bearing, a counter-clockwise turn subtracts one, modulo 4 |
| Painting.SameBearing | 11/src/lib.rs:45-50 | a direction is fixed by its bearing |
| Painting.TurnsUndo | 11/src/lib.rs:75-88 | counter-clockwise undoes clockwise and the other way round, and four equal turns come back to the start |
| Painting.Move | 11/src/lib.rs:91-96 | a step changes exactly one coordinate by one: up is +y, down -y, right +x, left -x |
| Painting.MoveBack | 11/src/lib.rs:75-96 | turning round and stepping again returns to the panel left, and a step changes exactly one coordinate |
| Painting.PanelColor | 11/src/lib.rs:59-64 | a painted panel reads as the colour last stored, an unpainted one as the initial colour |
| Painting.RoundEffect | 11/src/lib.rs:58-96 | a full round inputs the panel's colour, takes exactly two outputs, paints the robot's panel with the first and no other panel, turns by the second and steps one panel the new way |
| Painting.RoundStops | 11/src/lib.rs:68-74 | a halt at either output returns the panels as they are, and an output that is not a colour (resp. a turn) is the error |
| Painting.RoundPaintsOnePanel | 11/src/lib.rs:90 | a full round adds at most the robot's own panel to the painted set |
| Painting.PaintNext | 11/src/lib.rs:58-100 | after a full round the rest of `paint` is left to the new robot; a finished round is the result |
| Painting.PanelsOnlyGrow | 11/src/lib.rs:52-101 | the panels `paint` returns include every panel painted before |
| Painting.PaintRound | 11/src/lib.rs:58-99 | one pass of the loop on the machine in place has the outcome and new robot of `Round` |
| Painting.Paint | 11/src/lib.rs:52-101 | `paint` is `PaintFrom` from the start robot on the parsed program, and a malformed program is an error |
| Painting.Least | 11/src/lib.rs:104-108 | the minimum of a non-empty set is in the set and below every element |
| Painting.Greatest | 11/src/lib.rs:118-122 | the maximum of a non-empty set is in the set and above every element |
| Painting.LeastOf | 11/src/lib.rs:104-108 | `.min()` over the coordinates is the least one |
| Painting.GreatestOf | 11/src/lib.rs:118-127 | `.max()` over the shifted coordinates is the greatest one |
| Painting.Shifted | 11/src/lib.rs:118-127 | a panel's shifted coordinates are among those the maxima range over |
| Painting.WindowOf | 11/src/lib.rs:104-127 | the window's offsets are the absolute values of the least coordinates, and its extents the greatest shifted coordinates |
| Painting.PanelInWindow | 11/src/lib.rs:117-132 | every painted panel lies inside the window drawn |
| Painting.Glyph | 11/src/lib.rs:132-136 | a panel is drawn as a filled square exactly when it is painted white; black or unpainted is a space |
| Painting.Row | 11/src/lib.rs:131-141 | a row has max_x+1 characters, the glyph of each column's panel, and then a newline |
| Painting.PrintPanels | 11/src/lib.rs:103-145 | the drawing is every row of the window, top row first; an empty map is the `expect` panic |
| Painting.RowsLength | 11/src/lib.rs:130-142 | k rows are k times one row long |
| Painting.RowsAt | 11/src/lib.rs:130-142 | the character at row r, column c of the drawing is that of the row drawn r rows below the top |
| Painting.PictureLength | 11/src/lib.rs:130-142 | the drawing has max_y+1 lines of max_x+1 characters and a newline each |
| Painting.PictureAt | 11/src/lib.rs:130-142 | row r from the top, column c show a filled square exactly where panel (c - min_x, max_y - r - min_y) is white, and each line ends in a newline |
| Maze.OffsetPos | 15/src/lib.rs:18-26 | a step in any of the four directions leads to an adjacent position (north +y, east +x, south -y, west -x) |
| Maze.OppositeDir | 15/src/lib.rs:28-36 | the opposite of a direction is a different direction |
| Maze.OppositeUndoes | 15/src/lib.rs:18-36 | taking the opposite twice gives the direction back, and a step the opposite way undoes a step |
| Maze.AdjacentSymmetric | 15/src/lib.rs:49-67 | adjacency does not depend on the order of the two positions |
| Maze.DirBetween | 15/src/lib.rs:49-67 | a direction exists exactly between adjacent positions, and stepping that way from the first reaches the second; anything else is the panic |
| Maze.DirBetweenOffset | 15/src/lib.rs:49-67 | the direction found from a position to its neighbour in direction d is d |
| Maze.ClimbDepth | 15/src/lib.rs:38-47 | in a parent map without cycles, each link climbed lowers the depth by one and stays inside the map until depth 0 |
| Maze.RootReached | 15/src/lib.rs:38-47 | the chain from a position leaves the parent map after exactly its depth in links |
| Maze.FindDistanceToRoot | 15/src/lib.rs:38-47 | the loop counts the parent links followed until a position without a parent: every position before is in the map, the one reached is not |
| Maze.Walk | 15/src/lib.rs:77-104 | the commands of a walk, when it has them, are one valid direction per step |
| Maze.WalkConnected | 15/src/lib.rs:49-67 | a walk has its commands exactly when every step is adjacent to the position before it |
| Maze.ConnectedSnoc | 15/src/lib.rs:96-104 | a walk is connected exactly when all but its last step are and the last step is adjacent to the one before |
| Maze.WalkPrefixFails | 15/src/lib.rs:77-104 | a walk that panics on a prefix panics as a whole |
| Maze.DriveSnoc | 15/src/lib.rs:79-80 | one more command moves the droid on from where the earlier ones left it |
| Maze.DriveAppend | 15/src/lib.rs:77-104 | commands sent one after another drive the droid on from where the first ones left it |
| Maze.DriveAlong | 15/src/lib.rs:77-104 | walking through open positions only, the droid ends on the last step |
| Maze.Droid.constructor | 15/src/lib.rs:129-131 | the droid starts on (0,0) over the given area, with no command sent |
| Maze.Droid.Command | 15/src/lib.rs:154-155 | a command is answered with the status of the position it leads to; the droid moves there exactly when that status is not a wall, and the command is logged |
| Maze.UpSteps | 15/src/lib.rs:77-85 | the climb from a position has one step per link |
| Maze.UpStepsAt | 15/src/lib.rs:77-85 | the k-th position climbed is the (k+1)-th ancestor |
| Maze.UpStepsPrefix | 15/src/lib.rs:77-85 | climbing fewer links climbs a prefix of the same positions |
| Maze.DownPrefix | 15/src/lib.rs:96-104 | the first j positions descended number j |
| Maze.DownSteps | 15/src/lib.rs:89-104 | the descent to a position has one step per link of its chain |
| Maze.DownPrefixAt | 15/src/lib.rs:89-104 | the k-th position descended is the (d-1-k)-th ancestor: the chain read backwards, ending at the position itself |
| Maze.DownPrefixPrefix | 15/src/lib.rs:96-104 | descending fewer positions descends a prefix of the same ones |
| Maze.MovePlan | 15/src/lib.rs:69-105 | the commands `move_to_pos` sends, when it does not panic, are valid directions |
| Maze.MoveToPos | 15/src/lib.rs:69-105 | `move_to_pos` fails exactly where the source panics (a link between non-adjacent positions, or a root other than (0,0)); otherwise it sends the climb to the root and then the descent to `pos`, and the droid ends where those commands drive it |
| Maze.FollowPlan | 15/src/lib.rs:76-104 | the same, once the lengths of both chains are known |
| Maze.ClimbToRoot | 15/src/lib.rs:76-85 | the first loop sends one command per parent link climbed from `current` and ends at its root |
| Maze.ClimbBound | 15/src/lib.rs:77 | a chain still inside the parent map has climbed fewer links than its length, one outside it exactly that many |
| Maze.Chain | 15/src/lib.rs:91-94 | the first n positions of the chain number n |
| Maze.ChainPop | 15/src/lib.rs:96 | popping the last position off a chain leaves the chain one shorter, and the popped position is the ancestor at that distance |
| Maze.ChainOf | 15/src/lib.rs:89-94 | `path_to_pos` is the chain of `pos` up to its root, `pos` first and the root left out |
| Maze.Descend | 15/src/lib.rs:89-104 | the last two loops send the droid from (0,0) down the chain of `pos`, one command per link, or fail where the source panics |
| Maze.PopDown | 15/src/lib.rs:96-104 | popping `path_to_pos` sends the descent commands in order |
| Maze.PopStep | 15/src/lib.rs:96-103 | one pop takes the last position of the path, the next one down the chain, and sends the command to it |
| Maze.StepTo | 15/src/lib.rs:78-80 | one step sends the command from `cur` to `step` exactly when they are adjacent |
| Maze.ClimbStep | 15/src/lib.rs:77-83 | one more link climbed extends the commands by the direction to the parent, or makes the climb panic |
| Maze.DescentStep | 15/src/lib.rs:96-102 | one more position descended extends the commands by the direction to it, or makes the descent panic |
| Maze.ChainToStart | 15/src/lib.rs:87 | in the search's bookkeeping every chain climbs to (0,0), the only position of depth 0 |
| Maze.Discover | 15/src/lib.rs:150-152 | a newly discovered position gets its parent at that moment, one deeper than the current position, and no other link changes; the bookkeeping stays consistent |
| Maze.UpWalk | 15/src/lib.rs:76-87 | from a position the search stands on, the climb reaches (0,0) without a panic and, with an open start, leaves the droid there |
| Maze.DownLink | 15/src/lib.rs:96-104 | each position descended is adjacent to the one before it and is open floor unless it is the target |
| Maze.DownWalk | 15/src/lib.rs:89-104 | the descent from (0,0) to a position the search stands on never panics and, with an open start, ends on that position |
| Maze.PlanArrives | 15/src/lib.rs:143-146 | between positions the search stands on, `move_to_pos` never panics and leaves the droid on the target |
| Maze.RouteToRoot | 15/src/lib.rs:168 | the parent chain of a discovered position, read from (0,0), is a route of exactly its depth moves |
| Maze.ChainLink | 15/src/lib.rs:150-164 | each link of a discovered chain joins adjacent positions, and every position on it but the first is open floor |
| Maze.QueueGrows | 15/src/lib.rs:164 | queued positions stay ones the search can stand on as links are added, and so does a position queued after them |
| Maze.Probe | 15/src/lib.rs:148-171 | one probe gives an undiscovered neighbour its parent and sends the droid there; from open floor the droid is sent back so `current_pos` is unchanged and the neighbour is queued; FOUND_O2 ends the search with the route length and any other status is the unexpected-output panic |
| Maze.FindOxygen | 15/src/lib.rs:128-177 | a distance returned is the length of a route from (0,0) to a position answering FOUND_O2, on which the droid stands; an unexpected status is none of the three codes |
| Shuffle.CreateCards | 22/src/lib.rs:4-6 | the new deck holds the cards 0 to n-1, card i at index i, and is empty for a negative n |
| Shuffle.CutDeck | 22/src/lib.rs:8-19 | cutting moves the first `cut_point` cards (the last `-n` cards counted from the end for a negative n) to the back, keeping their order |
| Shuffle.CutUndo | 22/src/lib.rs:8-19 | cutting at c and then at len - c gives the deck back |
| Shuffle.DealIntoNewStack | 22/src/lib.rs:21-24 | the new stack holds the same number of cards in reverse order |
| Shuffle.NewStackTwice | 22/src/lib.rs:21-24 | dealing into a new stack twice gives the deck back |
| Shuffle.DealtSoFar | 22/src/lib.rs:27-31 | the deck being dealt keeps the size of the old one |
| Shuffle.DealWithIncrement | 22/src/lib.rs:26-34 | the loop writes each card i to slot (i * n) % len, in order, over a deck of zeros |
| Shuffle.SlotInverse | 22/src/lib.rs:29 | when n * m is 1 modulo the deck size, the slot for m brings the slot for n back to where the card started |
| Shuffle.SlotInjective | 22/src/lib.rs:29 | with an increment coprime to the deck size, no two cards share a slot |
| Shuffle.DealtStays | 22/src/lib.rs:28-31 | once dealt, a card stays in its slot while the later cards are dealt |
| Shuffle.DealPermutes | 22/src/lib.rs:26-34 | with an increment coprime to the deck size, dealing is a permutation: card i lands in slot (i * n) % len, and slot j holds card (j * m) % len |
| Shuffle.Apply | 22/src/lib.rs:69-73 | every instruction keeps the deck size |
| Shuffle.ApplyAll | 22/src/lib.rs:68-74 | a sequence of instructions keeps the deck size |
| Shuffle.ShuffleDeck | 22/src/lib.rs:65-77 | the loop applies the instructions in order to the fresh deck |
| Shuffle.TrackCard | 22/src/lib.rs:79-99 | the loop moves the card's index through each instruction in order |
| Shuffle.TrackStepFollows | 22/src/lib.rs:83-95 | one step of the tracker gives the index, within the deck, where that instruction puts the card that was at `loc` |
| Shuffle.TrackFollows | 22/src/lib.rs:82-96 | tracking through all the instructions finds the card where the shuffle puts it, as long as every increment is coprime to the deck size |
| Shuffle.TrackAgreesWithShuffle | 22/src/lib.rs:65-99 | `shuffle_track_card` names the index at which `shuffle` leaves the card (the property the two day-22 tests check on their input) |
| Shuffle.ExampleOneSlots | 22/src/lib.rs:114 | 3 undoes the increment 7 for ten cards, and the expected deck of example 1 is the slot map of 3 |
| Shuffle.IncrementThenTwoStacks | 22/src/lib.rs:106-116 | dealing with an increment and then into a new stack twice equals the increment alone |
| Shuffle.ExampleOne | 22/src/lib.rs:105-116 | example 1: increment 7 and two new stacks turn ten cards into 0 3 6 9 2 5 8 1 4 7 |
| Shuffle.ParseLine | 22/src/lib.rs:47-60 | a line parses to its instruction, or fails naming its own index where the source panics |
| Shuffle.ParseLines | 22/src/lib.rs:43-63 | a success has one instruction per line, each that line's; a failure names the first line that does not parse |
| Shuffle.ShuffleText | 22/src/lib.rs:65-77 | `shuffle` fails exactly when the instructions do not parse, and otherwise applies them in order to a fresh deck |
| Shuffle.ShuffleTrackCard | 22/src/lib.rs:79-99 | `shuffle_track_card` fails exactly when the instructions do not parse, and otherwise tracks the card through them |
| Reactions.ParseShowChem | 14/src/lib.rs:17-26 | `Chem::try_from` reads back a chemical written as "N NAME" |
| Reactions.ChemPiece | 14/src/lib.rs:42 | a piece of the left-hand side is a chemical exactly when it parses as one, and the failure names the piece |
| Reactions.ParseLine | 14/src/lib.rs:38-44 | a line is an equation exactly when it has "=>", chemicals on the left and one on the right; the failure names the line |
| Reactions.Table | 14/src/lib.rs:46 | every equation in the table is stored under the name of the chemical it produces |
| Reactions.TableKeys | 14/src/lib.rs:35-50 | the table has exactly one key per output name of the lines (later lines replace earlier ones) |
| Reactions.ParseFormulas | 14/src/lib.rs:35-50 | `parse_formulas` fails exactly when a line does not parse, on the first such line, and otherwise returns the table of the parsed lines |
| Reactions.Start | 14/src/lib.rs:53-60 | the loop starts with a leftovers entry for every chemical of the table |
| Reactions.Runs | 14/src/lib.rs:81-83 | `(needed + out - 1) / out` is the fewest runs of the reaction that produce at least the shortfall |
| Reactions.Scaled | 14/src/lib.rs:89-94 | each input of the reaction is queued with its amount multiplied by the number of runs |
| Reactions.Step | 14/src/lib.rs:62-97 | a pass never adds or removes a leftovers entry and never lowers the ORE total |
| Reactions.OreForFuel | 14/src/lib.rs:52-101 | the loop computes the ORE of the worklist semantics, failing where the source panics (a chemical missing from the table, a reaction producing nothing) |
| Reactions.PushInputs | 14/src/lib.rs:89-94 | the inputs are pushed in order, each scaled by the multiplier |
| Reactions.OreCounted | 14/src/lib.rs:63-66 | an ORE request adds its amount to the total without consulting the table |
| Reactions.LeftoversFirst | 14/src/lib.rs:68-72 | a request the leftovers cover is taken from them and nothing else changes |
| Reactions.ReactionThenLeftovers | 14/src/lib.rs:73-97 | an uncovered request runs its reaction just often enough; on the next pass the leftovers cover it and less than one batch of its output is left over |
| Reactions.NoFuelNoOre | 14/src/lib.rs:52-101 | no FUEL costs no ORE |
| Reactions.RunStep | 14/src/lib.rs:62 | a successful pass hands the rest of the loop to the new state |
| Reactions.DirectCost | 14/src/lib.rs:52-101 | under "k ORE => 1 FUEL", n FUEL cost k * n ORE |
| Reactions.DescendToTwo | 14/src/lib.rs:115-130 | while every midpoint of at least 2 costs more than the ORE, the second loop of `find_fuel_for_ore` as written shrinks `0..upper` to `0..2` |
| Reactions.SeedHalvesToTwo | 14/src/lib.rs:105 | the first upper bound, 8 388 608, reaches 2 by repeated "halve, less one" |
| Reactions.ExactMatchOvershoots | 14/src/lib.rs:115-129 | as written, an exact match returns `upper`: under "1 ORE => 1 FUEL" with 1 ORE the answer is 2 FUEL, which costs 2 ORE |
| Reactions.LowerOvershoots | 14/src/lib.rs:115-134 | as written, `lower = mid + 1` can move onto an unaffordable amount that the loop then returns unchecked: under "2 ORE => 1 FUEL" with 3 ORE the answer is 2 FUEL, which costs 4 ORE |
| Reactions.Bisect | 14/src/lib.rs:115-134 | the corrected search returns the most FUEL in the range that the ORE pays for |
| Reactions.FindFuelForOre | 14/src/lib.rs:103-135 | the corrected `find_fuel_for_ore`: the answer is the most FUEL the ORE pays for (it is affordable and one more FUEL is not) |
| Fft.ParseInputVec | 16/src/lib.rs:4-10 | the signal has one digit 0..9 per character of the input |
| Fft.ShowSignal | 16/src/lib.rs:4-10 | writing a signal of digits gives one digit character per element |
| Fft.ParseShow | 16/src/lib.rs:4-10 | parsing a written signal gives it back |
| Fft.ShowParse | 16/src/lib.rs:4-10 | writing a parsed input gives the input back |
| Fft.PhaseDigit | 16/src/lib.rs:23 | an output element is a single digit, the last digit of the magnitude of the row's sum |
| Fft.Phase | 16/src/lib.rs:12-28 | a phase keeps the length of the signal and outputs only digits |
| Fft.Phases | 16/src/lib.rs:30-39 | any number of phases keeps the length, and at least one phase leaves only digits |
| Fft.PhaseInPlace | 16/src/lib.rs:12-28 | the two loops compute, for each row, the last digit of the sum over columns `row..=n` of the pattern element `(col / row) % len` times signal element `col - 1` |
| Fft.ProcessSignal | 16/src/lib.rs:30-39 | `process_signal` applies `phases` phases of the pattern 0, 1, 0, -1 to the parsed input |
| Fft.PlaceSumDecimal | 16/src/lib.rs:41-45 | the first k terms of `val_at_pos` sum to the decimal value of k digits, scaled by the places still to come |
| Fft.ValAtPosIsDecimal | 16/src/lib.rs:41-45 | `val_at_pos` reads `len` digits from `pos` as a decimal number, most significant first |
| Fft.AfterHalf | 16/src/lib.rs:47-58 | `phase_after_half` keeps the length of the signal |
| Fft.AfterHalfs | 16/src/lib.rs:60-67 | repeated `phase_after_half` keeps the length of the signal |
| Fft.PhaseAfterHalf | 16/src/lib.rs:47-58 | element i of the result is the running total, modulo 10, of the signal from i to the end |
| Fft.ProcessAfterHalf | 16/src/lib.rs:60-67 | `process_after_half` applies `phase_after_half` 100 times to the signal from `offset`; when `offset` lies in the second half of a signal of digits, the result is the tail of 100 full phases, the shortcut the day-16 part-two tests rely on |
| Fft.SuffixTotalIsSum | 16/src/lib.rs:49-53 | for non-negative elements the running total is the last digit of the suffix sum |
| Fft.RowSumInSecondHalf | 16/src/lib.rs:15-21 | for a row in the second half of the signal, the pattern is 1 on every column summed, so the row's sum is the plain sum of the signal from that row |
| Fft.TailOfPhase | 16/src/lib.rs:12-58 | past the middle of a signal of digits, one full phase equals `phase_after_half` on the tail |
| Fft.TailOfPhases | 16/src/lib.rs:30-67 | past the middle, k full phases equal k applications of `phase_after_half` on the tail |
| Fft.OffsetExample | 16/src/lib.rs:81-86 | the offset test: the first seven digits of "0303673…" read as 303673 |
| Fft.LeadingDigits | 16/src/lib.rs:41-45 | any signal starting with the digits 0303673 has offset 303673 |
| Orbits.ParseLine | 6/orbit/src/lib.rs:14-18 | a line is the pair (orbited, orbiter) around its ')', or an error naming the line where the source indexes past the pieces |
| Orbits.ParsePairs | 6/orbit/src/lib.rs:11-20 | a success has one pair per line, each that line's; a failure names the first line without ')' |
| Orbits.ToMapKeys | 6/orbit/src/lib.rs:19 | the collected map has exactly one key per orbiter named in the input |
| Orbits.ToMapLastWins | 6/orbit/src/lib.rs:19 | an orbiter named more than once maps to the object of its last line |
| Orbits.ParseInput | 6/orbit/src/lib.rs:11-20 | `parse_input` fails exactly when some line lacks ')', and otherwise maps each orbiter to the object it orbits |
| Orbits.AncestorAdd | 6/orbit/src/lib.rs:32-35 | climbing i links and then j more is climbing i + j links |
| Orbits.Distance | 6/orbit/src/lib.rs:29-38 | the walk from `start` passes neither `end` nor COM during its first d links and reaches one of them after d links |
| Orbits.DistanceUnique | 6/orbit/src/lib.rs:29-38 | only one count has that property |
| Orbits.CountDistance | 6/orbit/src/lib.rs:29-38 | the loop counts the links up from `start` to the first object that is `end` or COM |
| Orbits.SumDistances | 6/orbit/src/lib.rs:22-27 | every object in the map other than COM adds at least one orbit to the sum |
| Orbits.SumDistancesRemove | 6/orbit/src/lib.rs:22-27 | the sum over a set of objects is the distance of any one of them plus the sum over the rest, whatever order `keys()` gives |
| Orbits.CountAllOrbits | 6/orbit/src/lib.rs:22-27 | the total counts every direct and indirect orbit: at least one per orbiter when COM orbits nothing |
| Orbits.StopsFromWalk | 6/orbit/src/lib.rs:32-35 | a walk that reaches `end` or COM within the map ends the loop |
| Orbits.StopsForAnyEnd | 6/orbit/src/lib.rs:32 | a walk that reaches COM ends whatever the target |
| Orbits.DepthOfAncestor | 6/orbit/src/lib.rs:29-38 | the object i links above x is i nearer to COM |
| Orbits.DepthPositive | 6/orbit/src/lib.rs:32 | an object with a positive depth is not COM |
| Orbits.DistanceToAncestor | 6/orbit/src/lib.rs:70-71 | the distance from x to the object i links above it is i |
| Orbits.FirstMeeting | 6/orbit/src/lib.rs:61-67 | two walks at equal depth that meet for the first time meet at the lowest common object of YOU and SAN |
| Orbits.Climb | 6/orbit/src/lib.rs:57-59 | the loop ends on the object `diff` links above its start |
| Orbits.DepthZero | 6/orbit/src/lib.rs:32 | the only object at depth zero is COM |
| Orbits.ClimbStep | 6/orbit/src/lib.rs:64-67 | two distinct objects at equal depth both orbit something, so both walks climb one link and stay level |
| Orbits.Meet | 6/orbit/src/lib.rs:64-69 | the loop stops on the lowest object both YOU and SAN orbit, directly or indirectly |
| Orbits.DistanceToSanta | 6/orbit/src/lib.rs:40-74 | `distance_to_santa` returns the number of transfers between the object YOU orbits and the object SAN orbits, through their lowest common object |
| Orbits.SumOverList | 6/orbit/src/lib.rs:22-27 | for a list without repeats, the sum over its set is the sum along the list |
| Orbits.DepthParent | 6/orbit/src/lib.rs:32-35 | an object other than COM is one deeper than the object it orbits |
| Orbits.ComDepth | 6/orbit/src/lib.rs:32 | the walk from COM stops at once |
| Orbits.ExampleNearDepths | 6/orbit/src/lib.rs:103-113 | in the example map B to E and G, H lie 1 to 4 and 2, 3 links from COM |
| Orbits.ExampleFarDepths | 6/orbit/src/lib.rs:103-113 | in the example map F, I, J, K, L lie 5, 4, 5, 6, 7 links from COM |
| Orbits.ExampleObjects | 6/orbit/src/lib.rs:103-113 | the example's orbiters are B to L, each once |
| Orbits.DistanceSumOf | 6/orbit/src/lib.rs:22-27 | a table of known depths sums to the distance sum along the list |
| Orbits.ExampleDepthTable | 6/orbit/src/lib.rs:103-113 | the example's depths are 1, 2, 3, 4, 5, 2, 3, 4, 5, 6, 7 |
| Orbits.TableOfDepths | 6/orbit/src/lib.rs:103-113 | the eleven depth facts make up the depth table |
| Orbits.CountFromList | 6/orbit/src/lib.rs:22-27 | the orbit count of a map whose keys are listed once each is the total of their depths |
| Orbits.OrbitExample | 6/orbit/src/lib.rs:101-119 | the example map has 42 orbits |
| Orbits.TransfersUnique | 6/orbit/src/lib.rs:40-74 | the number of transfers is determined by the map |
| Orbits.CommonDepth | 6/orbit/src/lib.rs:61-63 | a common object lies equally far from COM whether reached from YOU or from SAN |
| Orbits.SantaTrunkDepths | 6/orbit/src/lib.rs:123-135 | in the Santa example D and E lie 3 and 4 links from COM |
| Orbits.SantaRootDepths | 6/orbit/src/lib.rs:123-135 | in the Santa example C lies 2 links from COM |
| Orbits.SantaDepths | 6/orbit/src/lib.rs:123-135 | in the Santa example YOU lies 7 links from COM and SAN 5 |
| Orbits.SantaWalks | 6/orbit/src/lib.rs:123-135 | in the Santa example YOU climbs through J, E, D and SAN through I, D |
| Orbits.SantaExample | 6/orbit/src/lib.rs:121-140 | the Santa example needs 4 transfers |
| Moons.AbsSum | 12/src/lib.rs:50-56 | the sum of absolute coordinates is zero exactly for the zero vector |
| Moons.TotalEnergy | 12/src/lib.rs:58-60 | a moon's energy is never negative and is zero exactly for a moon at rest at the origin |
| Moons.NewMoon | 12/src/lib.rs:12-17 | a new moon sits at its initial position at rest, so all its energy is potential |
| Moons.Velocity | 12/src/lib.rs:20-26 | every moon moves by its velocity along each dimension, and velocities stay |
| Moons.Sign | 12/src/lib.rs:37-43 | the step is -1, 0 or 1 with the sign of the difference |
| Moons.VelocitySumUpdate | 12/src/lib.rs:36-44 | replacing one moon changes the velocity sum by the change in that moon's velocity |
| Moons.Attract | 12/src/lib.rs:32-45 | one pair (i, j): along each dimension each moon's velocity moves one unit away from the other moon when their positions differ; positions, every other moon, and the velocity sum stay; a moon paired with itself does not change |
| Moons.Received | 12/src/lib.rs:30-31 | a moon has received at most one pull per moon |
| Moons.Gravity | 12/src/lib.rs:28-48 | every moon's velocity changes by its total pull from all the moons, positions stay, and the velocities along each dimension keep their sum |
| Moons.PairPulled | 12/src/lib.rs:31-46 | processing pair (i, j) adds exactly the pulls of that pair to the bookkeeping |
| SpaceImage.LoadImage | 8/src/lib.rs:12-23 | loading succeeds exactly when every character other than a newline is 0, 1 or 2, giving one value below 3 per pixel; a failure names a character that is none of them |
| SpaceImage.LoadEncode | 8/src/lib.rs:12-23 | loading the digits of a list of pixel values gives the list back |
| SpaceImage.LoadPixels | 8/src/lib.rs:25-36 | `load_pixels` fails exactly where `load_image` does, and otherwise gives the pixel of each loaded value: 0 black, 1 white, 2 transparent |
| SpaceImage.CountsCoverLayer | 8/src/lib.rs:47-50 | the three counts of a layer add up to the number of pixels in it |
| SpaceImage.FullLayer | 8/src/lib.rs:41-48 | a layer holds 150 pixels, fewer only for a last, partial layer, none past the image |
| SpaceImage.LayerCountsSum | 8/src/lib.rs:41-50 | in an image of whole layers, the counts of each layer add up to 150 |
| SpaceImage.FirstMin | 8/src/lib.rs:52-59 | the layer chosen has the fewest zeros, and every earlier layer has more (the first minimum wins, as the strict `<` does) |
| SpaceImage.Zeros | 8/src/lib.rs:41 | there is one zero count per whole layer |
| SpaceImage.CountImage | 8/src/lib.rs:38-62 | `count_image` fails exactly on a bad pixel character and otherwise returns the number of 1s times the number of 2s on the layer with the fewest 0s |
| SpaceImage.CountLayers | 8/src/lib.rs:40-50 | the counting loops fill one row per layer with the number of pixels of each value in that layer |
| SpaceImage.FewestZeros | 8/src/lib.rs:52-59 | the loop picks the first layer with the fewest zeros |
| SpaceImage.FirstOpaque | 8/src/lib.rs:70-73 | the pixel shown at a position, when there is one, is not transparent |
| SpaceImage.RowGlyphs | 8/src/lib.rs:69-82 | a row of the picture has one glyph per column |
| SpaceImage.Picture | 8/src/lib.rs:68-87 | the picture has 26 characters per row: 25 glyphs and a newline |
| SpaceImage.PictureAt | 8/src/lib.rs:68-87 | each glyph of the picture is the first non-transparent pixel at that position through the layers (black a space, white a solid box), and each row ends with a newline |
| SpaceImage.PrintImage | 8/src/lib.rs:64-88 | `print_image` fails on a bad pixel character or on the first position that is transparent on every layer, where the source panics, and otherwise returns the picture |
| SpaceImage.Render | 8/src/lib.rs:66-87 | the loops return the picture exactly when every position of the first layer has a non-transparent pixel through the layers, and otherwise the first position that has none |
| SpaceImage.NotOpaque | 8/src/lib.rs:71-76 | a position with no opaque pixel makes the image unprintable |
| SpaceImage.ScreenPixel | 8/src/lib.rs:70-73 | the `while` loop skips down the layers by 150 pixels to the first pixel that is not transparent, or finds none |
| Password.Digits | 4/src/main.rs:26-35 | for a non-negative number, each of the six entries is a decimal digit |
| Password.DigitAt | 4/src/main.rs:26-35 | entry 5 - k is the last digit of the number divided by 10^k |
| Password.DigitsValue | 4/src/main.rs:26-35 | for a number below a million, the six digits read back as the number |
| Password.IncreasingIsSorted | 4/src/main.rs:37-43 | comparing neighbours is the same as the six digits being sorted |
| Password.OnlyTwoAdjacentSame | 4/src/main.rs:53-80 | `only_two_adjacent_same` is true exactly when some maximal run of equal adjacent digits is exactly two long |
| Password.NoPairInRun | 4/src/main.rs:56-76 | a run the loops walk over that is not two long holds no run of exactly two |
| Password.ValidInSplit | 4/src/main.rs:13-21 | the valid numbers of a range are its first number, when valid, and the valid numbers after it |
| Password.CountValidIsSize | 4/src/main.rs:11-24 | the count is the number of valid passwords in `lower..upper` |
| Password.FindValid | 4/src/main.rs:11-24 | `find_valid` counts the numbers in `lower..upper` whose digits never decrease and contain a run of exactly two |
| Password.DigitsOfLiteral | 4/src/main.rs:82-84 | `nth_digit(k, n)` is the last digit of a known quotient |
| Password.NotIncreasing111110 | 4/src/main.rs:86-91 | 111110 is not valid: its digits decrease at the end |
| Password.NoPair111111 | 4/src/main.rs:86-91 | 111111 is not valid: its only run is six long |
| Password.FindValidExample | 4/src/main.rs:86-91 | the range 111110..111112 holds no valid password |
| Points.PointsCollinear | 10/src/points.rs:52-63 | the determinant test is zero exactly when the cross product of b - a and c - a is zero, that is when the three points lie on one line |
| Points.DetIsCross | 10/src/points.rs:61 | the source's expanded determinant equals the cross product (b - a) × (c - a) |
| Points.Collinear | 10/src/points.rs:31-33 | `collinear` holds exactly when the cross product of b - p and c - p is zero |
| Points.Between | 10/src/points.rs:10-29 | a point between two others is neither of them |
| Points.RelativeTo | 10/src/points.rs:44-49 | shifting the result back by the origin gives the point, and only the origin itself maps to (0,0) |
| Points.BetweenSymmetric | 10/src/points.rs:10-29 | betweenness does not depend on the order of the two end points |
| Points.ParallelProducts | 10/src/points.rs:52-63 | for parallel vectors the products of their coordinates agree, the step the segment proof needs |
| Points.BetweenIsInsideSegment | 10/src/points.rs:10-29 | `between` holds exactly when p lies on the line through b and c and strictly inside the segment (the vectors to b and to c point in opposite directions) |
| Points.NotBetweenAtEnds | 10/src/points.rs:10-29 | neither end point is between the two |
| Points.CollinearTranslated | 10/src/points.rs:44-63 | shifting all three points to a new origin keeps them collinear or not |
| Points.CollinearAlong | 10/src/points.rs:52-63 | points on a common direction from a are collinear with a |
| Points.CollinearExamples | 10/src/points.rs:69-92 | the horizontal, vertical and diagonal lines of the test are collinear |
| Points.NonCollinearExamples | 10/src/points.rs:94-117 | the three triangles of the test are not collinear |
| AsteroidMap.Parse | 10/src/lib.rs:37-49 | `parse` returns exactly the '#' positions of the trimmed lines, each once, in increasing row-major order (line index y, column x) |
| AsteroidMap.Found | 10/src/lib.rs:42-44 | an asteroid at (x, y) is appended and the scan moves past it |
| AsteroidMap.Skipped | 10/src/lib.rs:41-45 | any other symbol is skipped without changing the list |
| AsteroidMap.RowDone | 10/src/lib.rs:40-46 | finishing a line moves the scan to the start of the next one |
| AsteroidMap.AllRows | 10/src/lib.rs:37-49 | once every line is scanned, the list holds every asteroid and nothing else |
| AsteroidMap.RowMajorDistinct | 10/src/lib.rs:37-49 | the list names no asteroid twice |
| AsteroidMap.VerifyParse | 10/src/lib.rs:55-76 | the test `verify_parse`: for the five-line map, whose later lines are indented, any result meeting `parse`'s contract is exactly the test's ten points in the test's order |
| AsteroidMap.ExampleRows | 10/src/lib.rs:39 | splitting the test's map at newlines and trimming each line gives the five unindented rows |
| AsteroidMap.ExampleAsteroids | 10/src/lib.rs:57-74 | the '#' positions of the five rows are exactly the ten expected points, and that list is in row-major order |
| AsteroidMap.RowMajorUnique | 10/src/lib.rs:37-49 | two row-major lists holding the same points are the same list, so `parse`'s result is determined by the map |
| Wires.ParseStep | 3/src/main.rs:36-46 | a token is a step when its first character is U, D, L or R and the rest parses as an integer; otherwise it fails at its own index, where the source panics |
| Wires.Move | 3/src/main.rs:40-46 | U and D move along y only, L and R along x only, by the step's count in the direction named |
| Wires.WireSegments | 3/src/main.rs:29-54 | `wire_segments` fails exactly when some token is not a step, on the first such token; otherwise it gives one segment per token, the first starting at the origin and each starting where the previous one ended and ending where its step leads |
| Wires.WalksExtend | 3/src/main.rs:39-49 | one more segment from the current position to where the next step leads extends the walk |
| Wires.FirstBad | 3/src/main.rs:36-45 | the first token that is not a step is where the walk fails |
| Wires.AllWalked | 3/src/main.rs:33-51 | a walk over every token means every token parsed |

## Left out

- File and console I/O: the `main` functions of days 1, 2, two, 3, 4 and 5, the file reads in the day 6 and day 8 tests, and every `println!`. The logic around them is modelled, and program text is passed in as a string.
- The brute-force search in 2/src/main.rs:47-68 re-reads the input file on every iteration. Only the restore step it relies on (`Alarm`) is modelled.
- The embedded puzzle inputs and the tests that run them to final answers: PROGRAM_5, PROGRAM_7, PROGRAM_9, PROGRAM_11, FIFTEEN, FOURTEEN, PROGRAM_22 and SIXTEEN_INPUT. Those answers take thousands of machine steps. The small examples in the tests are proved, except the ones listed below.
- Intcode's tests over puzzle programs, for the same reason.
- Intcode.IntCode: the `output()` accessor (intcode/src/lib.rs:83) is the class's `output` field, read directly.
- Floating point is not modelled: 10/src/polar.rs (f32 `sqrt` and `atan`) and the f64 `Line` of 10/src/lib.rs:7-11.
- Code that does not compile or is a stub: `ten`, `lines` and `line` in 10/src/lib.rs:15-35, and `find_intersections` and `intersection` in 3/src/main.rs:56-62 together with their test.
- The glue binaries 16/src/bin.rs and 14/src/bin.rs. The first calls functions that 16/src/lib.rs does not define.
- Terminal rendering in 15/src/lib.rs: `print_robot` (its body is commented out) and the termion import.
- Integer widths: cells, amounts and counters are unbounded integers. Overflow panics and wrap-around are not modelled. A negative value cast with `as usize` and used as an address is modelled as a bad-address fault. The i32 and `OpSize` mismatches between days 7, 11 and 15 and the shared machine do not arise.
- Text.ParseInt: accepts any decimal numeral. Rust's `str::parse` into a fixed-width type rejects a numeral outside that type's range, such as `9223372036854775808` for an `i64` cell (intcode/src/lib.rs:3). So `IntcodeMachine.InitOps` and the other parsers succeed where the source returns a parse error.
- IntcodeMachine.ComputeOutput, IntcodeMachine.Run, Intcode.IntCode.ComputeOutput, Intcode.IntCode.Run: `fuel` bounds the number of instructions, and running out gives the `OutOfFuel` signal. `Run` is also bounded by `calls`, the number of outputs it waits for.
- Diagnostic.Run, Diagnostic.Compute: `steps` bounds the number of instructions.
- Amplifiers.ThrusterSignal, Amplifiers.FeedbackSignal, Amplifiers.FindMaxPhaseSetting, Amplifiers.FindMaxFeedbackPhaseSetting: `fuel` bounds each amplifier's run and `turns` bounds the rounds of the feedback ring. Running out is the `OutOfFuel` fault.
- Amplifiers.FindMaxPhaseSetting, Amplifiers.FindMaxFeedbackPhaseSetting: the five nested loops are modelled as one loop over a base-5 counter. It visits the same phase settings in the same order.
- Painting.Paint: `rounds` bounds the robot's steps and `fuel` bounds each machine run.
- Maze.FindOxygen: `rounds` bounds the breadth-first search. The droid's Intcode program is replaced by the area it explores, as a map from position to status code, so the `None` panic in `compute_output` does not arise.
- Maze.FindOxygen: requires the droid's start to be open, since the droid stands there.
- Maze.FindOxygen: does not prove that the distance found is the shortest. It proves that the path is a walk over open positions ending on the oxygen system.
- Reactions.ParseFormulas, Reactions.OreForFuel: `steps` bounds the worklist loop.
- Reactions.FindFuelForOre: `rounds` bounds the doubling loop. `cost` stands for `ore_for_fuel` on the puzzle's table, so the seed pair 8388608 FUEL / 694999561 ORE (14/src/lib.rs:105-107) becomes a precondition. That `cost` never falls as the FUEL grows (`Monotone`) is also a precondition; it is not proved of `Reactions.OreFor`.
- Reactions: the ORE counts of the source's examples (31, 165 and 13312) are not proved for their tables. Smaller direct-cost tables are proved instead, and the "six keys" example is covered by the general lemma on the table's keys.
- SpaceImage.CountImage: requires at least one whole layer and nothing but whole layers. The source indexes out of range otherwise.
- SpaceImage: in `print_image` the pixel is indexed before the bound is checked, so a position that is transparent in every layer panics out of bounds. The model keeps the panic as its `TransparentAt` outcome.
- Fft.ParseInputVec: requires every character to be a digit. The source's `unwrap` panic is not modelled as an error value.
- Fft.PhaseInPlace: requires a non-empty pattern.
- Fft: the `example_1` test is not proved; the phase properties that cover it are.
- Orbits.DistanceToSanta, Orbits.CountDistance: require the walk toward the root to stay within the map. The source panics on a missing key.
- Orbits.DistanceToSanta: the result is an unbounded integer. The u32 underflow when the common object is YOU or SAN itself is not modelled.
- Shuffle.DealWithIncrement: takes a natural-number increment. A negative increment, which the source wraps with `as usize`, is left out.
- Shuffle.ShuffleTrackCard: requires a non-empty deck.
- Shuffle.TrackAgreesWithShuffle: holds for increments coprime to the deck size, the only ones for which dealing is a permutation.
- Amplifiers: the feedback-loop tests `example_2_1` and `example_2_1_find` (7/src/lib.rs:167-186) are not proved. The first runs five machines through several rounds of the ring, and the second repeats that for all 120 phase settings. The ring is covered instead by the general lemmas `CirculateOutput`, `CirculateHalt` and `CirculateKeepsPhases` about the function `Circulate`.
- Shuffle.CutDeck: requires `CanCut`, a cut point between 0 and the deck length. The source's `cut` (22/src/lib.rs:8-19) panics on an out-of-range index for any other cut, and the model does not turn that panic into an error value.
- Shuffle.Apply, Shuffle.ApplyAll: require every cut to satisfy `CanCut` and every increment to be non-negative, for the reasons given for `CutDeck` and `DealWithIncrement`.
- Shuffle.ShuffleText: requires the parsed instructions to satisfy the same conditions for the deck it creates. A parse error is still returned as an error value.
- Fft.ValAtPos: requires `pos + len <= |signal|`. The source panics on an out-of-range index when `len` is positive. When `len` is 0 it returns 0 for any `pos`, and the model does not cover that case.
- Fft.ProcessAfterHalf: requires `offset <= |signal|`. The source's slice `&signal[offset..]` panics otherwise.
- Shuffle: the `example_2` test and the PROGRAM_22 tests are left out.
- Moons: the raw-pointer aliasing of 12/src/lib.rs:32-35 is modelled as a pair of indices `i <= j` into one array of moons. The tests at 12/src/lib.rs:66-116 assert a placeholder energy of 1 and are not modelled.

## Findings

| source | as written | input that shows it | evidently intended | confidence | as-written member | corrected member |
|---|---|---|---|---|---|---|
| 14/src/lib.rs:115-129 | when `ore_for_fuel(mid)` equals the ORE exactly, `find_fuel_for_ore` returns `upper`, not `mid` | the table "1 ORE => 1 FUEL" with 1 ORE: the search meets cost 1 at 1 FUEL and answers 2 FUEL, which costs 2 ORE | the most FUEL the ORE pays for, which here is 1. The corrected member changes two lines: it doubles while the cost is at most the ORE, where line 108 has `current_ore < ore`, and it searches with `Bisect`, which never returns an amount it has not checked | not executed | Reactions.ExactMatchOvershoots | Reactions.FindFuelForOre |
| 14/src/lib.rs:115-134 | `lower = mid + 1` (line 124) moves `lower` onto an amount whose cost was never compared with the ORE, and when that makes `lower == upper` the loop returns it unchecked | the table "2 ORE => 1 FUEL" with 3 ORE: in the range 0..2 the midpoint 1 costs 2 ORE, `lower` moves to 2, and the search answers 2 FUEL, which costs 4 ORE | the most FUEL the ORE pays for, which here is 1 | not executed | Reactions.LowerOvershoots | Reactions.Bisect |
