/**
 * What the Intcode machine of intcode/src/lib.rs guarantees, stated over
 * the step function: instruction lengths, jumps, the input queue, the
 * output log, the relative base and the faults.
 */
module IntcodeProperties {
  import opened Wrappers
  import opened IntcodeDecode
  import opened RustInt
  import opened IntcodeMachine

  /** The decoded instruction at the instruction pointer. */
  function Current(m: Machine): Result<Instruction, Fault> {
    var coded :- Load(m.ops, m.ip);
    ParseOp(coded)
  }

  /** Input is consumed from a queue: the cursor never passes its end. */
  ghost predicate Wf(m: Machine) {
    m.inputPos <= |m.input|
  }

  /**
   * A step keeps the memory size and the input queue, consumes at most one
   * input, and appends to the output log exactly the value it emits.
   */
  lemma StepFrame(m: Machine)
    requires Step(m).Ok?
    ensures |Step(m).value.next.ops| == |m.ops|
    ensures Step(m).value.next.input == m.input
    ensures m.inputPos <= Step(m).value.next.inputPos <= m.inputPos + 1
    ensures Wf(m) ==> Wf(Step(m).value.next)
    ensures Step(m).value.event.Emitted? ==> Step(m).value.next.output == m.output + [Step(m).value.event.value]
    ensures !Step(m).value.event.Emitted? ==> Step(m).value.next.output == m.output
  {
  }

  /** Instruction lengths: four cells for the three-parameter instructions, two for one parameter, one for halt. */
  lemma StepLength(m: Machine)
    requires Step(m).Ok?
    ensures Current(m).Ok?
    ensures IsBinary(Current(m).value.opcode) ==> Step(m).value.next.ip == m.ip + 4
    ensures Current(m).value.opcode in {INPUT, OUTPUT, ADJUST_RELATIVE_BASE} ==> Step(m).value.next.ip == m.ip + 2
    ensures Current(m).value.opcode == HCF ==> Step(m).value == Transition(m.(ip := m.ip + 1), Halted)
  {
  }

  /** A jump goes to its second parameter exactly when its condition holds, and past itself otherwise. */
  lemma JumpTarget(m: Machine)
    requires Step(m).Ok? && Current(m).value.opcode in {JUMP_IF_TRUE, JUMP_IF_FALSE}
    ensures ResolveOp(m, m.ip + 1, Current(m).value.mode1).Ok?
    ensures ResolveOp(m, m.ip + 2, Current(m).value.mode2).Ok?
    ensures var a := ResolveOp(m, m.ip + 1, Current(m).value.mode1).value;
            var b := ResolveOp(m, m.ip + 2, Current(m).value.mode2).value;
            Step(m).value.next == m.(ip := if (a != 0) == (Current(m).value.opcode == JUMP_IF_TRUE) then b else m.ip + 3)
  {
  }

  /** Only input consumes, and it stores the oldest unread input value. */
  lemma InputConsumed(m: Machine)
    requires Step(m).Ok?
    ensures Step(m).value.next.inputPos == m.inputPos + 1 <==> Current(m).value.opcode == INPUT
    ensures Current(m).value.opcode == INPUT ==>
      m.inputPos < |m.input| &&
      OpPtr(m, m.ip + 1, Current(m).value.mode1).Ok? &&
      Step(m).value.next.ops == m.ops[OpPtr(m, m.ip + 1, Current(m).value.mode1).value := m.input[m.inputPos]]
  {
  }

  /**
   * Add, multiply, less-than and equals, in every mode: the step succeeds
   * exactly when both operands resolve and the target is inside memory, and
   * then it stores `Apply(opcode, a, b)` at the target, changes no other
   * cell, and moves past its four cells.
   */
  lemma BinaryStores(m: Machine)
    requires Current(m).Ok? && IsBinary(Current(m).value.opcode)
    ensures var ins := Current(m).value;
            Step(m).Ok? <==>
              ResolveOp(m, m.ip + 1, ins.mode1).Ok? && ResolveOp(m, m.ip + 2, ins.mode2).Ok? &&
              OpPtr(m, m.ip + 3, ins.mode3).Ok? && 0 <= OpPtr(m, m.ip + 3, ins.mode3).value < |m.ops|
    ensures Step(m).Ok? ==>
            var ins := Current(m).value;
            var a := ResolveOp(m, m.ip + 1, ins.mode1).value;
            var b := ResolveOp(m, m.ip + 2, ins.mode2).value;
            var target := OpPtr(m, m.ip + 3, ins.mode3).value;
            0 <= target < |m.ops| &&
            Step(m).value == Transition(m.(ops := m.ops[target := Apply(ins.opcode, a, b)], ip := m.ip + 4), Running)
  {
    assert Step(m) == Binary(m, Current(m).value);
  }

  /** Output, in every mode: it emits the value of its parameter, appends it to the log, and changes nothing else. */
  lemma OutputEmits(m: Machine)
    requires Current(m).Ok? && Current(m).value.opcode == OUTPUT
    ensures Step(m).Ok? <==> ResolveOp(m, m.ip + 1, Current(m).value.mode1).Ok?
    ensures Step(m).Ok? ==>
            var v := ResolveOp(m, m.ip + 1, Current(m).value.mode1).value;
            Step(m).value == Transition(m.(ip := m.ip + 2, output := m.output + [v]), Emitted(v))
  {
    assert Step(m) == OutputOp(m, Current(m).value);
  }

  /** Adjust-relative-base, in every mode: it moves the base by its parameter, leaves memory alone, and moves past its two cells. */
  lemma AdjustMovesBase(m: Machine)
    requires Current(m).Ok? && Current(m).value.opcode == ADJUST_RELATIVE_BASE
    ensures Step(m).Ok? <==> ResolveOp(m, m.ip + 1, Current(m).value.mode1).Ok?
    ensures Step(m).Ok? ==>
            var a := ResolveOp(m, m.ip + 1, Current(m).value.mode1).value;
            Step(m).value == Transition(m.(ip := m.ip + 2, relativeBase := m.relativeBase + a), Running)
  {
    assert Step(m) == AdjustOp(m, Current(m).value);
  }

  /** Output is the only instruction that emits, and halt the only one that halts. */
  lemma Events(m: Machine)
    requires Step(m).Ok?
    ensures Step(m).value.event.Emitted? <==> Current(m).value.opcode == OUTPUT
    ensures Step(m).value.event.Halted? <==> Current(m).value.opcode == HCF
  {
  }

  /** Only the adjust instruction moves the relative base, by the value of its parameter. */
  lemma RelativeBase(m: Machine)
    requires Step(m).Ok?
    ensures Current(m).value.opcode != ADJUST_RELATIVE_BASE ==> Step(m).value.next.relativeBase == m.relativeBase
    ensures Current(m).value.opcode == ADJUST_RELATIVE_BASE ==>
      Step(m).value.next.relativeBase == m.relativeBase + ResolveOp(m, m.ip + 1, Current(m).value.mode1).value
  {
    var ins := Current(m).value;
    assert Step(m) == Execute(m, ins);
    if ins.opcode == ADJUST_RELATIVE_BASE {
      assert Step(m) == AdjustOp(m, ins);
    }
  }

  /** The faults: a bad opcode, an immediate input target, an exhausted input, a bad instruction pointer. */
  lemma Faults(m: Machine)
    ensures !(0 <= m.ip < |m.ops|) ==> Step(m) == Err(BadAddress(m.ip))
    ensures Current(m).Ok? && !IsBinary(Current(m).value.opcode)
      && !(Current(m).value.opcode in {INPUT, OUTPUT, JUMP_IF_TRUE, JUMP_IF_FALSE, ADJUST_RELATIVE_BASE, HCF})
      ==> Step(m) == Err(UnrecognizedInstruction(Current(m).value.opcode))
    ensures Current(m).Ok? && Current(m).value.opcode == INPUT && Current(m).value.mode1 == Immediate
      ==> Step(m) == Err(ImmediateInputTarget)
    ensures Current(m).Ok? && Current(m).value.opcode == INPUT && Current(m).value.mode1 != Immediate
      && OpPtr(m, m.ip + 1, Current(m).value.mode1).Ok? && m.inputPos >= |m.input|
      ==> Step(m) == Err(InputExhausted)
  {
  }

  /**
   * `compute_output` keeps the memory size and the input queue, and the
   * output log grows by exactly the value it returns.
   */
  lemma {:induction false} ComputeOutputLog(m: Machine, fuel: nat)
    ensures |ComputeOutput(m, fuel).machine.ops| == |m.ops|
    ensures ComputeOutput(m, fuel).machine.input == m.input
    ensures m.inputPos <= ComputeOutput(m, fuel).machine.inputPos
    ensures Wf(m) ==> Wf(ComputeOutput(m, fuel).machine)
    ensures ComputeOutput(m, fuel).signal.Output? ==>
      ComputeOutput(m, fuel).machine.output == m.output + [ComputeOutput(m, fuel).signal.value]
    ensures !ComputeOutput(m, fuel).signal.Output? ==> ComputeOutput(m, fuel).machine.output == m.output
    decreases fuel
  {
    if fuel > 0 && Step(m).Ok? {
      StepFrame(m);
      if Step(m).value.event.Running? {
        ComputeOutputLog(Step(m).value.next, fuel - 1);
      }
    }
  }

  /** `run` stops on anything but an output, and only appends to the output log. */
  lemma {:induction false} RunLog(m: Machine, calls: nat, fuel: nat)
    ensures !Run(m, calls, fuel).signal.Output?
    ensures m.output <= Run(m, calls, fuel).machine.output
    ensures Run(m, calls, fuel).machine.input == m.input
    ensures |Run(m, calls, fuel).machine.ops| == |m.ops|
    decreases calls
  {
    if calls > 0 {
      var s := ComputeOutput(m, fuel);
      ComputeOutputLog(m, fuel);
      if s.signal.Output? {
        RunLog(s.machine, calls - 1, fuel);
      }
    }
  }

  /** Halting is not sticky: the instruction pointer moves past 99, so a later call runs on. */
  lemma HaltIsNotSticky(ops: seq<int>)
    requires ops == [99, 104, 7, 99]
    ensures ComputeOutput(Init(ops), 1).signal == Halt
    ensures ComputeOutput(ComputeOutput(Init(ops), 1).machine, 1).signal == Output(7)
  {
    var m := Init(ops);
    DecodeCell(99);
    DecodeCell(104);
    assert Step(m) == Ok(Transition(m.(ip := 1), Halted));
    var m1 := m.(ip := 1);
    assert Step(m1).value.event == Emitted(7);
  }

  lemma DecodeCell(c: int)
    requires c in {99, 104}
    ensures c == 99 ==> ParseOp(c) == Ok(Instruction(HCF, Positional, Positional, Positional))
    ensures c == 104 ==> ParseOp(c) == Ok(Instruction(OUTPUT, Immediate, Positional, Positional))
  {
    Pow10Values();
    NthDigitOfNatural(2, c);
    NthDigitOfNatural(3, c);
    NthDigitOfNatural(4, c);
  }
}
