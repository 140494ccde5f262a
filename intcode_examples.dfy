/**
 * Programs from the tests of intcode/src/lib.rs, run on the model: the
 * comparisons with 8 in positional and immediate mode, the large product,
 * the large literal and the program that outputs a copy of itself.
 */
module IntcodeExamples {
  import opened Wrappers
  import opened IntcodeDecode
  import opened RustInt
  import opened IntcodeMachine

  /** The input, output, equals and halt instructions of the examples, all positional. */
  lemma Decoded(c: int)
    requires c == 3 || c == 4 || c == 8 || c == 99
    ensures ParseOp(c).Ok?
    ensures ParseOp(c).value == Instruction(c, Positional, Positional, Positional)
  {
    var ins := Instruction(c, Positional, Positional, Positional);
    assert Encode(ins) == c;
    DecodeEncode(ins);
  }

  /** The two arithmetic instructions of the amplifier example of 7/src/lib.rs. */
  lemma DecodedArith(c: int)
    requires c == 1 || c == 1002
    ensures ParseOp(c).Ok?
    ensures ParseOp(c).value == if c == 1 then Instruction(ADD, Positional, Positional, Positional)
      else Instruction(MULTIPLY, Positional, Immediate, Positional)
  {
    var ins := if c == 1 then Instruction(ADD, Positional, Positional, Positional)
      else Instruction(MULTIPLY, Positional, Immediate, Positional);
    assert Encode(ins) == c;
    DecodeEncode(ins);
  }

  /** The instruction at `ip` decodes as `ins`. */
  predicate Fetches(m: Machine, ins: Instruction) {
    0 <= m.ip < |m.ops| && ParseOp(m.ops[m.ip]) == Ok(ins)
  }

  /** `3,p`: the next input goes to cell p. */
  lemma StepInput(m: Machine)
    requires Fetches(m, Instruction(INPUT, Positional, Positional, Positional)) && m.ip + 1 < |m.ops| && 0 <= m.ops[m.ip + 1] < |m.ops|
    requires m.inputPos < |m.input|
    ensures Step(m) == Ok(Transition(m.(ops := m.ops[m.ops[m.ip + 1] := m.input[m.inputPos]], ip := m.ip + 2, inputPos := m.inputPos + 1), Running))
  {
  }

  /** `8,p,q,r`: cell r := (cell p == cell q). */
  lemma StepEquals(m: Machine)
    requires Fetches(m, Instruction(EQUALS, Positional, Positional, Positional)) && m.ip + 3 < |m.ops|
    requires 0 <= m.ops[m.ip + 1] < |m.ops| && 0 <= m.ops[m.ip + 2] < |m.ops| && 0 <= m.ops[m.ip + 3] < |m.ops|
    ensures Step(m) == Ok(Transition(m.(ops := m.ops[m.ops[m.ip + 3] := if m.ops[m.ops[m.ip + 1]] == m.ops[m.ops[m.ip + 2]] then 1 else 0], ip := m.ip + 4), Running))
  {
  }

  /** `1,p,q,r`: cell r := cell p + cell q. */
  lemma StepAdd(m: Machine)
    requires Fetches(m, Instruction(ADD, Positional, Positional, Positional)) && m.ip + 3 < |m.ops|
    requires 0 <= m.ops[m.ip + 1] < |m.ops| && 0 <= m.ops[m.ip + 2] < |m.ops| && 0 <= m.ops[m.ip + 3] < |m.ops|
    ensures Step(m) == Ok(Transition(m.(ops := m.ops[m.ops[m.ip + 3] := m.ops[m.ops[m.ip + 1]] + m.ops[m.ops[m.ip + 2]]], ip := m.ip + 4), Running))
  {
  }

  /** `1002,p,k,r`: cell r := cell p * k. */
  lemma StepMultiplyImmediate(m: Machine)
    requires Fetches(m, Instruction(MULTIPLY, Positional, Immediate, Positional)) && m.ip + 3 < |m.ops|
    requires 0 <= m.ops[m.ip + 1] < |m.ops| && 0 <= m.ops[m.ip + 3] < |m.ops|
    ensures Step(m) == Ok(Transition(m.(ops := m.ops[m.ops[m.ip + 3] := m.ops[m.ops[m.ip + 1]] * m.ops[m.ip + 2]], ip := m.ip + 4), Running))
  {
  }

  /** `4,p`: output cell p. */
  lemma StepOutput(m: Machine)
    requires Fetches(m, Instruction(OUTPUT, Positional, Positional, Positional)) && m.ip + 1 < |m.ops| && 0 <= m.ops[m.ip + 1] < |m.ops|
    ensures Step(m) == Ok(Transition(m.(ip := m.ip + 2, output := m.output + [m.ops[m.ops[m.ip + 1]]]), Emitted(m.ops[m.ops[m.ip + 1]])))
  {
    assert ResolveOp(m, m.ip + 1, Positional) == Ok(m.ops[m.ops[m.ip + 1]]);
  }

  /** `99`: halt, moving past the instruction. */
  lemma StepHalt(m: Machine)
    requires Fetches(m, Instruction(HCF, Positional, Positional, Positional))
    ensures Step(m) == Ok(Transition(m.(ip := m.ip + 1), Halted))
  {
  }

  /**
   * The test programs "3,9,8,9,10,9,4,9,99,-1,8" (padded as `init_ops` pads
   * it): the output is 1 when the input equals 8 and 0 otherwise.
   */
  lemma EqualsEight(ops: seq<int>, x: int)
    requires ops == [3, 9, 8, 9, 10, 9, 4, 9, 99, -1, 8] + seq(MEMORY_SIZE - 11, _ => 0)
    ensures Run(Input(Init(ops), x), 2, 10).signal == Halt
    ensures Run(Input(Init(ops), x), 2, 10).machine.output == [if x == 8 then 1 else 0]
  {
    assert |ops| == MEMORY_SIZE;
    assert ops[0] == 3 && ops[1] == 9 && ops[2] == 8 && ops[3] == 9 && ops[4] == 10 && ops[5] == 9;
    assert ops[6] == 4 && ops[7] == 9 && ops[8] == 99 && ops[10] == 8;
    EqualsEightLoad(ops);
    EqualsEightRun(ops, x);
  }

  /** The machine states of the comparison program: after input, after the comparison, after the output. */
  function EqualsEightState(ops: seq<int>, x: int, k: nat): Machine
    requires |ops| > 9
  {
    var v := if x == 8 then 1 else 0;
    if k == 0 then Machine(ops, 0, 0, 0, [x], [])
    else if k == 1 then Machine(ops[9 := x], 2, 1, 0, [x], [])
    else if k == 2 then Machine(ops[9 := v], 6, 1, 0, [x], [])
    else Machine(ops[9 := v], 8, 1, 0, [x], [v])
  }

  /** The four instruction cells of the comparison program decode as input, equals, output and halt. */
  lemma EqualsEightDecodes(input: int, equals: int, output: int, halt: int)
    requires input == 3 && equals == 8 && output == 4 && halt == 99
    ensures ParseOp(input) == Ok(Instruction(INPUT, Positional, Positional, Positional))
    ensures ParseOp(equals) == Ok(Instruction(EQUALS, Positional, Positional, Positional))
    ensures ParseOp(output) == Ok(Instruction(OUTPUT, Positional, Positional, Positional))
    ensures ParseOp(halt) == Ok(Instruction(HCF, Positional, Positional, Positional))
  {
    Decoded(input);
    Decoded(equals);
    Decoded(output);
    Decoded(halt);
  }

  /** The operand cells of the comparison program, and what its instruction cells decode as. */
  predicate EqualsEightLoaded(ops: seq<int>) {
    |ops| == MEMORY_SIZE &&
    ParseOp(ops[0]) == Ok(Instruction(INPUT, Positional, Positional, Positional)) && ops[1] == 9 &&
    ParseOp(ops[2]) == Ok(Instruction(EQUALS, Positional, Positional, Positional)) && ops[3] == 9 && ops[4] == 10 && ops[5] == 9 &&
    ParseOp(ops[6]) == Ok(Instruction(OUTPUT, Positional, Positional, Positional)) && ops[7] == 9 &&
    ParseOp(ops[8]) == Ok(Instruction(HCF, Positional, Positional, Positional)) && ops[10] == 8
  }

  lemma EqualsEightLoad(ops: seq<int>)
    requires |ops| == MEMORY_SIZE
    requires ops[0] == 3 && ops[1] == 9 && ops[2] == 8 && ops[3] == 9 && ops[4] == 10 && ops[5] == 9
    requires ops[6] == 4 && ops[7] == 9 && ops[8] == 99 && ops[10] == 8
    ensures EqualsEightLoaded(ops)
  {
    EqualsEightDecodes(ops[0], ops[2], ops[6], ops[8]);
  }

  lemma EqualsEightRun(ops: seq<int>, x: int)
    requires EqualsEightLoaded(ops)
    ensures Run(Input(Init(ops), x), 2, 10).signal == Halt
    ensures Run(Input(Init(ops), x), 2, 10).machine.output == [if x == 8 then 1 else 0]
  {
    EqualsEightLoads(ops, x);
    assert Input(Init(ops), x) == EqualsEightState(ops, x, 0);
  }

  lemma EqualsEightLoads(ops: seq<int>, x: int)
    requires EqualsEightLoaded(ops)
    ensures Run(EqualsEightState(ops, x, 0), 2, 10).signal == Halt
    ensures Run(EqualsEightState(ops, x, 0), 2, 10).machine.output == [if x == 8 then 1 else 0]
  {
    EqualsEightFirst(ops, x);
    var m3 := EqualsEightState(ops, x, 3);
    EqualsEightHalt(ops, x);
    Stops(m3, Transition(m3.(ip := 9), Halted), 10);
    RunOutput(EqualsEightState(ops, x, 0), 2, 1, 10);
    RunOutput(m3, 1, 0, 10);
  }

  lemma EqualsEightFirst(ops: seq<int>, x: int)
    requires EqualsEightLoaded(ops)
    ensures ComputeOutput(EqualsEightState(ops, x, 0), 10) == Suspension(EqualsEightState(ops, x, 3), Output(if x == 8 then 1 else 0))
  {
    var v := if x == 8 then 1 else 0;
    StepInput(EqualsEightState(ops, x, 0));
    EqualsEightCompare(ops, x);
    EqualsEightOutput(ops, x);
    Continues(EqualsEightState(ops, x, 0), EqualsEightState(ops, x, 1), 10);
    Continues(EqualsEightState(ops, x, 1), EqualsEightState(ops, x, 2), 9);
    Stops(EqualsEightState(ops, x, 2), Transition(EqualsEightState(ops, x, 3), Emitted(v)), 8);
  }

  lemma EqualsEightCompare(ops: seq<int>, x: int)
    requires EqualsEightLoaded(ops)
    ensures Step(EqualsEightState(ops, x, 1)) == Ok(Transition(EqualsEightState(ops, x, 2), Running))
  {
    var v := if x == 8 then 1 else 0;
    var m1 := EqualsEightState(ops, x, 1);
    assert m1.ops[2] == ops[2] && m1.ops[3] == 9 && m1.ops[4] == 10 && m1.ops[5] == 9 && m1.ops[9] == x && m1.ops[10] == 8;
    StepEquals(m1);
    assert m1.ops[9 := v] == ops[9 := v];
  }

  lemma EqualsEightOutput(ops: seq<int>, x: int)
    requires EqualsEightLoaded(ops)
    ensures Step(EqualsEightState(ops, x, 2)) == Ok(Transition(EqualsEightState(ops, x, 3), Emitted(if x == 8 then 1 else 0)))
  {
    var v := if x == 8 then 1 else 0;
    var m2 := EqualsEightState(ops, x, 2);
    assert m2.ops[6] == ops[6] && m2.ops[7] == 9 && m2.ops[9] == v;
    StepOutput(m2);
    assert m2.output + [v] == [v];
    assert m2.(ip := 8, output := [v]) == EqualsEightState(ops, x, 3);
  }

  lemma EqualsEightHalt(ops: seq<int>, x: int)
    requires EqualsEightLoaded(ops)
    ensures Step(EqualsEightState(ops, x, 3)) == Ok(Transition(EqualsEightState(ops, x, 3).(ip := 9), Halted))
  {
    assert EqualsEightState(ops, x, 3).ops[8] == ops[8];
    StepHalt(EqualsEightState(ops, x, 3));
  }

  /** A running step uses one unit of fuel and `compute_output` carries on. */
  lemma Continues(m: Machine, next: Machine, fuel: nat)
    requires fuel > 0 && Step(m) == Ok(Transition(next, Running))
    ensures ComputeOutput(m, fuel) == ComputeOutput(next, fuel - 1)
  {
  }

  /** An output or a halt ends `compute_output`. */
  lemma Stops(m: Machine, t: Transition, fuel: nat)
    requires fuel > 0 && Step(m) == Ok(t) && !t.event.Running?
    ensures ComputeOutput(m, fuel) == Suspension(t.next, if t.event.Halted? then Halt else Output(t.event.value))
  {
  }

  /** A three-parameter instruction with two immediate operands and a positional target. */
  lemma StepImmediates(m: Machine, op: int)
    requires IsBinary(op) && Fetches(m, Instruction(op, Immediate, Immediate, Positional)) && m.ip + 3 < |m.ops|
    requires 0 <= m.ops[m.ip + 3] < |m.ops|
    ensures Step(m) == Ok(Transition(m.(ops := m.ops[m.ops[m.ip + 3] := Apply(op, m.ops[m.ip + 1], m.ops[m.ip + 2])], ip := m.ip + 4), Running))
  {
    assert ResolveOp(m, m.ip + 1, Immediate) == Ok(m.ops[m.ip + 1]);
    assert ResolveOp(m, m.ip + 2, Immediate) == Ok(m.ops[m.ip + 2]);
  }

  /** `104,k`: output the literal k. */
  lemma StepOutputImmediate(m: Machine)
    requires Fetches(m, Instruction(OUTPUT, Immediate, Positional, Positional)) && m.ip + 1 < |m.ops|
    ensures Step(m) == Ok(Transition(m.(ip := m.ip + 2, output := m.output + [m.ops[m.ip + 1]]), Emitted(m.ops[m.ip + 1])))
  {
    assert ResolveOp(m, m.ip + 1, Immediate) == Ok(m.ops[m.ip + 1]);
  }

  /** The immediate-mode cells of the examples: 1102, 1107 and 1108, and 104. */
  lemma DecodedImmediate(c: int)
    requires c == 1102 || c == 1107 || c == 1108 || c == 104
    ensures c != 104 ==> ParseOp(c) == Ok(Instruction(c - 1100, Immediate, Immediate, Positional))
    ensures c == 104 ==> ParseOp(c) == Ok(Instruction(OUTPUT, Immediate, Positional, Positional))
  {
    var ins := if c == 104 then Instruction(OUTPUT, Immediate, Positional, Positional)
      else Instruction(c - 1100, Immediate, Immediate, Positional);
    assert Encode(ins) == c;
    DecodeEncode(ins);
  }

  /**
   * `run` on a machine whose first `compute_output` outputs `v` and stops
   * on a 99: the run halts with the log grown by `v` alone.
   */
  lemma OutputThenHalt(m: Machine, last: Machine, v: int)
    requires ComputeOutput(m, 10) == Suspension(last, Output(v))
    requires Step(last) == Ok(Transition(last.(ip := last.ip + 1), Halted))
    ensures Run(m, 2, 10).signal == Halt
    ensures Run(m, 2, 10).machine.output == last.output
  {
    Stops(last, Transition(last.(ip := last.ip + 1), Halted), 10);
    RunOutput(m, 2, 1, 10);
    RunOutput(last, 1, 0, 10);
  }

  /**
   * The tests `equal_8_immediate` (`1108`, `op` equals) and
   * `input_less_than_8` (`1107`, `op` less-than) on the program
   * "3,3,110op,-1,8,3,4,3,99": the input overwrites the comparison's first
   * operand, so the single output is 1 exactly when the input compares
   * with 8 and 0 otherwise.
   */
  lemma CompareImmediate(ops: seq<int>, op: int, x: int)
    requires op == EQUALS || op == LESS_THAN
    requires ops == [3, 3, 1100 + op, -1, 8, 3, 4, 3, 99] + seq(MEMORY_SIZE - 9, _ => 0)
    ensures Run(Input(Init(ops), x), 2, 10).signal == Halt
    ensures Run(Input(Init(ops), x), 2, 10).machine.output == [Apply(op, x, 8)]
    ensures LastOutput(Run(Input(Init(ops), x), 2, 10).machine) == Ok(if (op == EQUALS && x == 8) || (op == LESS_THAN && x < 8) then 1 else 0)
  {
    assert |ops| == MEMORY_SIZE;
    assert ops[0] == 3 && ops[1] == 3 && ops[2] == 1100 + op && ops[4] == 8 && ops[5] == 3;
    assert ops[6] == 4 && ops[7] == 3 && ops[8] == 99;
    CompareLoad(ops, op);
    CompareRun(ops, op, x);
  }

  /** The cells of the immediate comparison program, with its instruction cells decoded. */
  predicate CompareLoaded(ops: seq<int>, op: int) {
    |ops| == MEMORY_SIZE && IsBinary(op) &&
    ParseOp(ops[0]) == Ok(Instruction(INPUT, Positional, Positional, Positional)) && ops[1] == 3 &&
    ParseOp(ops[2]) == Ok(Instruction(op, Immediate, Immediate, Positional)) && ops[4] == 8 && ops[5] == 3 &&
    ParseOp(ops[6]) == Ok(Instruction(OUTPUT, Positional, Positional, Positional)) && ops[7] == 3 &&
    ParseOp(ops[8]) == Ok(Instruction(HCF, Positional, Positional, Positional))
  }

  lemma CompareLoad(ops: seq<int>, op: int)
    requires op == EQUALS || op == LESS_THAN
    requires |ops| == MEMORY_SIZE
    requires ops[0] == 3 && ops[1] == 3 && ops[2] == 1100 + op && ops[4] == 8 && ops[5] == 3
    requires ops[6] == 4 && ops[7] == 3 && ops[8] == 99
    ensures CompareLoaded(ops, op)
  {
    Decoded(ops[0]);
    DecodedImmediate(ops[2]);
    Decoded(ops[6]);
    Decoded(ops[8]);
  }

  /** The machine states of the immediate comparison program: after input, after the comparison, after the output. */
  function CompareState(ops: seq<int>, op: int, x: int, k: nat): Machine
    requires |ops| > 3 && IsBinary(op)
  {
    var v := Apply(op, x, 8);
    if k == 0 then Machine(ops, 0, 0, 0, [x], [])
    else if k == 1 then Machine(ops[3 := x], 2, 1, 0, [x], [])
    else if k == 2 then Machine(ops[3 := v], 6, 1, 0, [x], [])
    else Machine(ops[3 := v], 8, 1, 0, [x], [v])
  }

  lemma CompareRun(ops: seq<int>, op: int, x: int)
    requires CompareLoaded(ops, op)
    ensures Run(Input(Init(ops), x), 2, 10).signal == Halt
    ensures Run(Input(Init(ops), x), 2, 10).machine.output == [Apply(op, x, 8)]
  {
    assert Input(Init(ops), x) == CompareState(ops, op, x, 0);
    CompareFirst(ops, op, x);
    CompareHalt(ops, op, x);
    OutputThenHalt(CompareState(ops, op, x, 0), CompareState(ops, op, x, 3), Apply(op, x, 8));
  }

  lemma CompareFirst(ops: seq<int>, op: int, x: int)
    requires CompareLoaded(ops, op)
    ensures ComputeOutput(CompareState(ops, op, x, 0), 10) == Suspension(CompareState(ops, op, x, 3), Output(Apply(op, x, 8)))
  {
    var v := Apply(op, x, 8);
    CompareInput(ops, op, x);
    CompareCompare(ops, op, x);
    CompareOutput(ops, op, x);
    Continues(CompareState(ops, op, x, 0), CompareState(ops, op, x, 1), 10);
    Continues(CompareState(ops, op, x, 1), CompareState(ops, op, x, 2), 9);
    Stops(CompareState(ops, op, x, 2), Transition(CompareState(ops, op, x, 3), Emitted(v)), 8);
  }

  lemma CompareInput(ops: seq<int>, op: int, x: int)
    requires CompareLoaded(ops, op)
    ensures Step(CompareState(ops, op, x, 0)) == Ok(Transition(CompareState(ops, op, x, 1), Running))
  {
    StepInput(CompareState(ops, op, x, 0));
  }

  lemma CompareCompare(ops: seq<int>, op: int, x: int)
    requires CompareLoaded(ops, op)
    ensures Step(CompareState(ops, op, x, 1)) == Ok(Transition(CompareState(ops, op, x, 2), Running))
  {
    var v := Apply(op, x, 8);
    var m1 := CompareState(ops, op, x, 1);
    assert m1.ops[2] == ops[2] && m1.ops[3] == x && m1.ops[4] == 8 && m1.ops[5] == 3;
    StepImmediates(m1, op);
    assert m1.ops[3 := v] == ops[3 := v];
  }

  lemma CompareOutput(ops: seq<int>, op: int, x: int)
    requires CompareLoaded(ops, op)
    ensures Step(CompareState(ops, op, x, 2)) == Ok(Transition(CompareState(ops, op, x, 3), Emitted(Apply(op, x, 8))))
  {
    var v := Apply(op, x, 8);
    var m2 := CompareState(ops, op, x, 2);
    assert m2.ops[6] == ops[6] && m2.ops[7] == 3 && m2.ops[3] == v;
    StepOutput(m2);
    assert m2.output + [v] == [v];
    assert m2.(ip := 8, output := [v]) == CompareState(ops, op, x, 3);
  }

  lemma CompareHalt(ops: seq<int>, op: int, x: int)
    requires CompareLoaded(ops, op)
    ensures Step(CompareState(ops, op, x, 3)) == Ok(Transition(CompareState(ops, op, x, 3).(ip := 9), Halted))
  {
    assert CompareState(ops, op, x, 3).ops[8] == ops[8];
    StepHalt(CompareState(ops, op, x, 3));
  }

  /** The factor of `nine_example_2`. */
  const FACTOR := 34915192

  /**
   * The test `nine_example_2`, "1102,34915192,34915192,7,4,7,99,0": the
   * product of the two immediate operands is stored in cell 7 and output,
   * a value well past 32 bits.
   */
  lemma LargeProduct(ops: seq<int>, x: int)
    requires ops == [1102, FACTOR, FACTOR, 7, 4, 7, 99, 0] + seq(MEMORY_SIZE - 8, _ => 0)
    ensures Run(Input(Init(ops), x), 2, 10).signal == Halt
    ensures Run(Input(Init(ops), x), 2, 10).machine.output == [FACTOR * FACTOR]
  {
    assert |ops| == MEMORY_SIZE;
    assert ops[0] == 1102 && ops[1] == FACTOR && ops[2] == FACTOR && ops[3] == 7;
    assert ops[4] == 4 && ops[5] == 7 && ops[6] == 99;
    ProductLoad(ops);
    ProductRun(ops, x);
  }

  predicate ProductLoaded(ops: seq<int>) {
    |ops| == MEMORY_SIZE &&
    ParseOp(ops[0]) == Ok(Instruction(MULTIPLY, Immediate, Immediate, Positional)) &&
    ops[1] == FACTOR && ops[2] == FACTOR && ops[3] == 7 &&
    ParseOp(ops[4]) == Ok(Instruction(OUTPUT, Positional, Positional, Positional)) && ops[5] == 7 &&
    ParseOp(ops[6]) == Ok(Instruction(HCF, Positional, Positional, Positional))
  }

  lemma ProductLoad(ops: seq<int>)
    requires |ops| == MEMORY_SIZE
    requires ops[0] == 1102 && ops[1] == FACTOR && ops[2] == FACTOR && ops[3] == 7
    requires ops[4] == 4 && ops[5] == 7 && ops[6] == 99
    ensures ProductLoaded(ops)
  {
    DecodedImmediate(ops[0]);
    Decoded(ops[4]);
    Decoded(ops[6]);
  }

  /** The machine states of `nine_example_2`: after the product, after the output. */
  function ProductState(ops: seq<int>, x: int, k: nat): Machine
    requires |ops| > 7
  {
    var v := FACTOR * FACTOR;
    if k == 0 then Machine(ops, 0, 0, 0, [x], [])
    else if k == 1 then Machine(ops[7 := v], 4, 0, 0, [x], [])
    else Machine(ops[7 := v], 6, 0, 0, [x], [v])
  }

  lemma ProductRun(ops: seq<int>, x: int)
    requires ProductLoaded(ops)
    ensures Run(Input(Init(ops), x), 2, 10).signal == Halt
    ensures Run(Input(Init(ops), x), 2, 10).machine.output == [FACTOR * FACTOR]
  {
    var v := FACTOR * FACTOR;
    var m0, m1, m2 := ProductState(ops, x, 0), ProductState(ops, x, 1), ProductState(ops, x, 2);
    assert Input(Init(ops), x) == m0;
    StepImmediates(m0, MULTIPLY);
    assert Step(m0) == Ok(Transition(m1, Running));
    assert m1.ops[4] == ops[4] && m1.ops[5] == 7 && m1.ops[7] == v;
    StepOutput(m1);
    assert m1.(ip := 6, output := m1.output + [v]) == m2;
    Continues(m0, m1, 10);
    Stops(m1, Transition(m2, Emitted(v)), 9);
    assert m2.ops[6] == ops[6];
    StepHalt(m2);
    OutputThenHalt(m0, m2, v);
  }

  /** The literal of `nine_example_3`. */
  const LARGE := 1125899906842624

  /** The test `nine_example_3`, "104,1125899906842624,99": the immediate literal is output unchanged. */
  lemma LargeLiteral(ops: seq<int>, x: int)
    requires ops == [104, LARGE, 99] + seq(MEMORY_SIZE - 3, _ => 0)
    ensures Run(Input(Init(ops), x), 2, 10).signal == Halt
    ensures Run(Input(Init(ops), x), 2, 10).machine.output == [LARGE]
  {
    assert |ops| == MEMORY_SIZE && ops[0] == 104 && ops[1] == LARGE && ops[2] == 99;
    LiteralLoad(ops);
    LiteralRun(ops, x);
  }

  predicate LiteralLoaded(ops: seq<int>) {
    |ops| == MEMORY_SIZE &&
    ParseOp(ops[0]) == Ok(Instruction(OUTPUT, Immediate, Positional, Positional)) && ops[1] == LARGE &&
    ParseOp(ops[2]) == Ok(Instruction(HCF, Positional, Positional, Positional))
  }

  lemma LiteralLoad(ops: seq<int>)
    requires |ops| == MEMORY_SIZE && ops[0] == 104 && ops[1] == LARGE && ops[2] == 99
    ensures LiteralLoaded(ops)
  {
    DecodedImmediate(ops[0]);
    Decoded(ops[2]);
  }

  lemma LiteralRun(ops: seq<int>, x: int)
    requires LiteralLoaded(ops)
    ensures Run(Input(Init(ops), x), 2, 10).signal == Halt
    ensures Run(Input(Init(ops), x), 2, 10).machine.output == [LARGE]
  {
    var m0 := Machine(ops, 0, 0, 0, [x], []);
    var m1 := Machine(ops, 2, 0, 0, [x], [LARGE]);
    assert Input(Init(ops), x) == m0;
    StepOutputImmediate(m0);
    assert m0.ops[m0.ip + 1] == LARGE;
    assert m0.output + [LARGE] == [LARGE];
    assert m0.(ip := 2, output := [LARGE]) == m1;
    Stops(m0, Transition(m1, Emitted(LARGE)), 10);
    StepHalt(m1);
    OutputThenHalt(m0, m1, LARGE);
  }

  /** The cells of `nine_example_1`, a program that outputs a copy of itself. */
  const QUINE: seq<int> := [109, 1, 204, -1, 1001, 100, 1, 100, 1008, 100, 16, 101, 1006, 101, 0, 99]

  /**
   * The test `nine_example_1`: `run` on the program outputs its own
   * sixteen cells and halts. Each round moves the relative base one cell
   * further, outputs the cell just below the base, counts the round in
   * cell 100, sets cell 101 once the count reaches 16 and jumps back to the
   * start while cell 101 is 0. A round takes five instructions, so any
   * budget of at least five instructions per call suffices.
   */
  lemma Quine(ops: seq<int>, fuel: nat)
    requires ops == QUINE + seq(MEMORY_SIZE - |QUINE|, _ => 0)
    requires fuel >= 5
    ensures Run(Init(ops), |QUINE| + 1, fuel).signal == Halt
    ensures Run(Init(ops), |QUINE| + 1, fuel).machine.output == QUINE
  {
    QuineCells(ops);
    QuineLoad(ops);
    QuineRun(ops, fuel);
  }

  /** The first call outputs cell 0, and the remaining sixteen calls the rest up to the halt. */
  lemma QuineRun(ops: seq<int>, fuel: nat)
    requires QuineLoaded(ops) && fuel >= 5
    ensures Run(Init(ops), 17, fuel).signal == Halt
    ensures Run(Init(ops), 17, fuel).machine.output == ops[..16]
  {
    QuineFirst(ops, fuel);
    forall k | 0 <= k < 15
      ensures QuineCalls(ops, k, fuel)
    {
      QuineRound(ops, k, fuel);
    }
    QuineLast(ops, fuel);
    QuineChain(ops, fuel);
  }

  /** Call k + 1 of `compute_output`, from the end of round k, outputs cell k + 1. */
  predicate QuineCalls(ops: seq<int>, k: nat, fuel: nat)
    requires |ops| > 101 && k < 15
  {
    ComputeOutput(QuineState(ops, k, 0), fuel) == Suspension(QuineState(ops, k + 1, 0), Output(ops[k + 1]))
  }

  /** The calls of `run` chained together, from the facts about each call. */
  lemma QuineChain(ops: seq<int>, fuel: nat)
    requires |ops| > 101
    requires ComputeOutput(Init(ops), fuel) == Suspension(QuineState(ops, 0, 0), Output(ops[0]))
    requires forall k :: 0 <= k < 15 ==> QuineCalls(ops, k, fuel)
    requires ComputeOutput(QuineState(ops, 15, 0), fuel) == Suspension(QuineState(ops, 15, 3).(ip := 16), Halt)
    requires QuineState(ops, 15, 3).output == ops[..16]
    ensures Run(Init(ops), 17, fuel).signal == Halt
    ensures Run(Init(ops), 17, fuel).machine.output == ops[..16]
  {
    var ms := [Init(ops)] + seq(16, k requires 0 <= k < 16 => QuineState(ops, k, 0));
    forall i | 0 <= i < |ms| - 1
      ensures ComputeOutput(ms[i], fuel).signal.Output? && ComputeOutput(ms[i], fuel).machine == ms[i + 1]
    {
      if i > 0 {
        assert QuineCalls(ops, i - 1, fuel);
      }
    }
    RunCalls(ms, ComputeOutput(QuineState(ops, 15, 0), fuel), fuel);
  }

  /**
   * `run` through machines each of whose `compute_output` calls outputs
   * and stops in the next one, until the last call stops without output.
   */
  lemma {:induction false} RunCalls(ms: seq<Machine>, last: Suspension, fuel: nat)
    requires |ms| > 0
    requires forall i :: 0 <= i < |ms| - 1 ==> ComputeOutput(ms[i], fuel).signal.Output? && ComputeOutput(ms[i], fuel).machine == ms[i + 1]
    requires ComputeOutput(ms[|ms| - 1], fuel) == last && !last.signal.Output?
    ensures Run(ms[0], |ms|, fuel) == last
    decreases |ms|
  {
    RunOutput(ms[0], |ms|, |ms| - 1, fuel);
    if |ms| > 1 {
      var rest := ms[1..];
      assert forall i :: 0 <= i < |rest| ==> rest[i] == ms[i + 1];
      RunCalls(rest, last, fuel);
    }
  }

  /** The padded memory starts with the program and has zeros in cells 100 and 101. */
  lemma QuineCells(ops: seq<int>)
    requires ops == QUINE + seq(MEMORY_SIZE - |QUINE|, _ => 0)
    ensures |ops| == MEMORY_SIZE && ops[..16] == QUINE && ops[100] == 0 && ops[101] == 0
    ensures ops[0] == 109 && ops[2] == 204 && ops[4] == 1001 && ops[8] == 1008 && ops[12] == 1006 && ops[15] == 99
    ensures ops[1] == 1 && ops[3] == -1 && ops[5] == 100 && ops[6] == 1 && ops[7] == 100
    ensures ops[9] == 100 && ops[10] == 16 && ops[11] == 101 && ops[13] == 101 && ops[14] == 0
  {
    assert ops[..16] == QUINE;
  }

  /** The relative, immediate and mixed-mode cells of the self-printing program. */
  lemma DecodedQuine(c: int)
    requires c == 109 || c == 204 || c == 1001 || c == 1006 || c == 1008
    ensures c == 109 ==> ParseOp(c) == Ok(Instruction(ADJUST_RELATIVE_BASE, Immediate, Positional, Positional))
    ensures c == 204 ==> ParseOp(c) == Ok(Instruction(OUTPUT, Relative, Positional, Positional))
    ensures c > 1000 ==> ParseOp(c) == Ok(Instruction(c - 1000, Positional, Immediate, Positional))
  {
    var ins := if c == 109 then Instruction(ADJUST_RELATIVE_BASE, Immediate, Positional, Positional)
      else if c == 204 then Instruction(OUTPUT, Relative, Positional, Positional)
      else Instruction(c - 1000, Positional, Immediate, Positional);
    assert Encode(ins) == c;
    DecodeEncode(ins);
  }

  /** `109,k`: the relative base moves by k. */
  lemma StepAdjustImmediate(m: Machine)
    requires Fetches(m, Instruction(ADJUST_RELATIVE_BASE, Immediate, Positional, Positional)) && m.ip + 1 < |m.ops|
    ensures Step(m) == Ok(Transition(m.(ip := m.ip + 2, relativeBase := m.relativeBase + m.ops[m.ip + 1]), Running))
  {
    assert ResolveOp(m, m.ip + 1, Immediate) == Ok(m.ops[m.ip + 1]);
  }

  /** `204,k`: output the cell k past the relative base. */
  lemma StepOutputRelative(m: Machine)
    requires Fetches(m, Instruction(OUTPUT, Relative, Positional, Positional)) && m.ip + 1 < |m.ops|
    requires 0 <= m.relativeBase + m.ops[m.ip + 1] < |m.ops|
    ensures var v := m.ops[m.relativeBase + m.ops[m.ip + 1]];
      Step(m) == Ok(Transition(m.(ip := m.ip + 2, output := m.output + [v]), Emitted(v)))
  {
    assert ResolveOp(m, m.ip + 1, Relative) == Ok(m.ops[m.relativeBase + m.ops[m.ip + 1]]);
  }

  /** `10op,p,k,r`: cell r := cell p op k. */
  lemma StepPositionalImmediate(m: Machine, op: int)
    requires IsBinary(op) && Fetches(m, Instruction(op, Positional, Immediate, Positional)) && m.ip + 3 < |m.ops|
    requires 0 <= m.ops[m.ip + 1] < |m.ops| && 0 <= m.ops[m.ip + 3] < |m.ops|
    ensures Step(m) == Ok(Transition(m.(ops := m.ops[m.ops[m.ip + 3] := Apply(op, m.ops[m.ops[m.ip + 1]], m.ops[m.ip + 2])], ip := m.ip + 4), Running))
  {
    assert ResolveOp(m, m.ip + 1, Positional) == Ok(m.ops[m.ops[m.ip + 1]]);
    assert ResolveOp(m, m.ip + 2, Immediate) == Ok(m.ops[m.ip + 2]);
  }

  /** `1006,p,k`: jump to k when cell p is 0, otherwise fall through. */
  lemma StepJumpIfFalse(m: Machine)
    requires Fetches(m, Instruction(JUMP_IF_FALSE, Positional, Immediate, Positional)) && m.ip + 2 < |m.ops|
    requires 0 <= m.ops[m.ip + 1] < |m.ops|
    ensures Step(m) == Ok(Transition(m.(ip := if m.ops[m.ops[m.ip + 1]] == 0 then m.ops[m.ip + 2] else m.ip + 3), Running))
  {
    assert ResolveOp(m, m.ip + 1, Positional) == Ok(m.ops[m.ops[m.ip + 1]]);
    assert ResolveOp(m, m.ip + 2, Immediate) == Ok(m.ops[m.ip + 2]);
  }

  /** The cells of the self-printing program, with its instruction cells decoded. */
  predicate QuineLoaded(ops: seq<int>) {
    |ops| == MEMORY_SIZE && ops[100] == 0 && ops[101] == 0 &&
    ParseOp(ops[0]) == Ok(Instruction(ADJUST_RELATIVE_BASE, Immediate, Positional, Positional)) && ops[1] == 1 &&
    ParseOp(ops[2]) == Ok(Instruction(OUTPUT, Relative, Positional, Positional)) && ops[3] == -1 &&
    ParseOp(ops[4]) == Ok(Instruction(ADD, Positional, Immediate, Positional)) && ops[5] == 100 && ops[6] == 1 && ops[7] == 100 &&
    ParseOp(ops[8]) == Ok(Instruction(EQUALS, Positional, Immediate, Positional)) && ops[9] == 100 && ops[10] == 16 && ops[11] == 101 &&
    ParseOp(ops[12]) == Ok(Instruction(JUMP_IF_FALSE, Positional, Immediate, Positional)) && ops[13] == 101 && ops[14] == 0 &&
    ParseOp(ops[15]) == Ok(Instruction(HCF, Positional, Positional, Positional))
  }

  lemma QuineLoad(ops: seq<int>)
    requires |ops| == MEMORY_SIZE && ops[100] == 0 && ops[101] == 0
    requires ops[0] == 109 && ops[2] == 204 && ops[4] == 1001 && ops[8] == 1008 && ops[12] == 1006 && ops[15] == 99
    requires ops[1] == 1 && ops[3] == -1 && ops[5] == 100 && ops[6] == 1 && ops[7] == 100
    requires ops[9] == 100 && ops[10] == 16 && ops[11] == 101 && ops[13] == 101 && ops[14] == 0
    ensures QuineLoaded(ops)
  {
    DecodedQuine(ops[0]);
    DecodedQuine(ops[2]);
    DecodedQuine(ops[4]);
    DecodedQuine(ops[8]);
    DecodedQuine(ops[12]);
    Decoded(ops[15]);
  }

  /** The memory with the round count in cell 100 and the stop flag in cell 101. */
  function QuineOps(ops: seq<int>, count: int, flag: int): seq<int>
    requires |ops| > 101
  {
    ops[100 := count][101 := flag]
  }

  /**
   * The machine states of round k: after its output (j = 0), after the
   * count (1), after the comparison with 16 (2), after the jump (3) and
   * after the next base adjustment (4). The output so far is the program's
   * first k + 1 cells.
   */
  function QuineState(ops: seq<int>, k: nat, j: nat): Machine
    requires |ops| > 101 && k < 16
  {
    var count := k + 1;
    var flag := if count == 16 then 1 else 0;
    var out := ops[..k + 1];
    if j == 0 then Machine(QuineOps(ops, k, 0), 4, 0, k + 1, [], out)
    else if j == 1 then Machine(QuineOps(ops, count, 0), 8, 0, k + 1, [], out)
    else if j == 2 then Machine(QuineOps(ops, count, flag), 12, 0, k + 1, [], out)
    else if j == 3 then Machine(QuineOps(ops, count, flag), if flag == 0 then 0 else 15, 0, k + 1, [], out)
    else Machine(QuineOps(ops, count, flag), 2, 0, k + 2, [], out)
  }

  /** The first call adjusts the base to 1 and outputs cell 0. */
  lemma QuineFirst(ops: seq<int>, fuel: nat)
    requires QuineLoaded(ops) && fuel >= 5
    ensures ComputeOutput(Init(ops), fuel) == Suspension(QuineState(ops, 0, 0), Output(ops[0]))
  {
    var m0 := Init(ops);
    var m1 := Machine(ops, 2, 0, 1, [], []);
    StepAdjustImmediate(m0);
    assert m0.(ip := 2, relativeBase := 1) == m1;
    assert m1.relativeBase + m1.ops[m1.ip + 1] == 0;
    StepOutputRelative(m1);
    var v := m1.ops[m1.relativeBase + m1.ops[m1.ip + 1]];
    assert v == ops[0];
    assert m1.output + [v] == ops[..1];
    QuineUntouched(ops);
    assert m1.(ip := m1.ip + 2, output := m1.output + [v]) == QuineState(ops, 0, 0);
    Continues(m0, m1, fuel);
    Stops(m1, Transition(QuineState(ops, 0, 0), Emitted(ops[0])), fuel - 1);
  }

  /** Before the first round, cells 100 and 101 already hold 0. */
  lemma QuineUntouched(ops: seq<int>)
    requires |ops| > 101 && ops[100] == 0 && ops[101] == 0
    ensures QuineOps(ops, 0, 0) == ops
  {
    assert forall i :: 0 <= i < |ops| ==> QuineOps(ops, 0, 0)[i] == ops[i];
  }

  /** Three running steps use three units of fuel, and `compute_output` carries on. */
  lemma RunsThree(m0: Machine, m1: Machine, m2: Machine, m3: Machine, fuel: nat)
    requires fuel >= 3
    requires Step(m0) == Ok(Transition(m1, Running)) && Step(m1) == Ok(Transition(m2, Running))
    requires Step(m2) == Ok(Transition(m3, Running))
    ensures ComputeOutput(m0, fuel) == ComputeOutput(m3, fuel - 3)
  {
    Continues(m0, m1, fuel);
    Continues(m1, m2, fuel - 1);
    Continues(m2, m3, fuel - 2);
  }

  /** A running step and one that outputs or halts make one call of `compute_output`. */
  lemma TwoSteps(m0: Machine, m1: Machine, t: Transition, fuel: nat)
    requires fuel >= 2 && !t.event.Running?
    requires Step(m0) == Ok(Transition(m1, Running)) && Step(m1) == Ok(t)
    ensures ComputeOutput(m0, fuel) == Suspension(t.next, if t.event.Halted? then Halt else Output(t.event.value))
  {
    Continues(m0, m1, fuel);
    Stops(m1, t, fuel - 1);
  }

  /** A round short of the last outputs the next cell of the program. */
  lemma QuineRound(ops: seq<int>, k: nat, fuel: nat)
    requires QuineLoaded(ops) && k < 15 && fuel >= 5
    ensures ComputeOutput(QuineState(ops, k, 0), fuel) == Suspension(QuineState(ops, k + 1, 0), Output(ops[k + 1]))
  {
    QuineCount(ops, k);
    QuineCompare(ops, k);
    QuineJump(ops, k);
    QuineAdjust(ops, k);
    QuineEmit(ops, k);
    RunsThree(QuineState(ops, k, 0), QuineState(ops, k, 1), QuineState(ops, k, 2), QuineState(ops, k, 3), fuel);
    TwoSteps(QuineState(ops, k, 3), QuineState(ops, k, 4), Transition(QuineState(ops, k + 1, 0), Emitted(ops[k + 1])), fuel - 3);
  }

  /** The last round counts to 16, falls through the jump and halts. */
  lemma QuineLast(ops: seq<int>, fuel: nat)
    requires QuineLoaded(ops) && fuel >= 5
    ensures ComputeOutput(QuineState(ops, 15, 0), fuel) == Suspension(QuineState(ops, 15, 3).(ip := 16), Halt)
    ensures QuineState(ops, 15, 3).output == ops[..16]
  {
    var m3 := QuineState(ops, 15, 3);
    QuineCount(ops, 15);
    QuineCompare(ops, 15);
    QuineJump(ops, 15);
    assert m3.ip == 15 && m3.ops[15] == ops[15];
    StepHalt(m3);
    RunsThree(QuineState(ops, 15, 0), QuineState(ops, 15, 1), QuineState(ops, 15, 2), m3, fuel);
    Stops(m3, Transition(m3.(ip := 16), Halted), fuel - 3);
  }

  lemma QuineCount(ops: seq<int>, k: nat)
    requires QuineLoaded(ops) && k < 16
    ensures Step(QuineState(ops, k, 0)) == Ok(Transition(QuineState(ops, k, 1), Running))
  {
    var m := QuineState(ops, k, 0);
    assert m.ops[4] == ops[4] && m.ops[5] == 100 && m.ops[6] == 1 && m.ops[7] == 100 && m.ops[100] == k;
    StepPositionalImmediate(m, ADD);
    assert m.ops[100 := k + 1] == QuineOps(ops, k + 1, 0);
  }

  lemma QuineCompare(ops: seq<int>, k: nat)
    requires QuineLoaded(ops) && k < 16
    ensures Step(QuineState(ops, k, 1)) == Ok(Transition(QuineState(ops, k, 2), Running))
  {
    var m := QuineState(ops, k, 1);
    var flag := if k + 1 == 16 then 1 else 0;
    assert m.ops[8] == ops[8] && m.ops[9] == 100 && m.ops[10] == 16 && m.ops[11] == 101 && m.ops[100] == k + 1;
    StepPositionalImmediate(m, EQUALS);
    assert m.ops[101 := flag] == QuineOps(ops, k + 1, flag);
  }

  lemma QuineJump(ops: seq<int>, k: nat)
    requires QuineLoaded(ops) && k < 16
    ensures Step(QuineState(ops, k, 2)) == Ok(Transition(QuineState(ops, k, 3), Running))
  {
    var m := QuineState(ops, k, 2);
    assert m.ops[12] == ops[12] && m.ops[13] == 101 && m.ops[14] == 0;
    StepJumpIfFalse(m);
  }

  lemma QuineAdjust(ops: seq<int>, k: nat)
    requires QuineLoaded(ops) && k < 15
    ensures Step(QuineState(ops, k, 3)) == Ok(Transition(QuineState(ops, k, 4), Running))
  {
    var m := QuineState(ops, k, 3);
    assert m.ip == 0 && m.ops[0] == ops[0] && m.ops[1] == 1;
    StepAdjustImmediate(m);
  }

  lemma QuineEmit(ops: seq<int>, k: nat)
    requires QuineLoaded(ops) && k < 15
    ensures Step(QuineState(ops, k, 4)) == Ok(Transition(QuineState(ops, k + 1, 0), Emitted(ops[k + 1])))
  {
    var m := QuineState(ops, k, 4);
    assert m.ops[2] == ops[2] && m.ops[3] == -1 && m.ops[k + 1] == ops[k + 1];
    StepOutputRelative(m);
    assert ops[..k + 1] + [ops[k + 1]] == ops[..k + 2];
  }
}
