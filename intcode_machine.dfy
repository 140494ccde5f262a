/**
 * The Intcode machine of intcode/src/lib.rs as a value: memory, instruction
 * pointer, input cursor, relative base and the input and output logs, with
 * one function per instruction and a single-step function. The class in
 * intcode.dfy is proved to follow these functions.
 */
module IntcodeMachine {
  import opened Wrappers
  import opened Text
  import opened IntcodeDecode

  /** The memory size `init_ops` pads a program to. */
  const MEMORY_SIZE: nat := 1500

  datatype Machine = Machine(
    ops: seq<int>,
    ip: int,
    inputPos: nat,
    relativeBase: int,
    input: seq<int>,
    output: seq<int>)

  /** What one executed instruction did besides changing the machine. */
  datatype Event = Running | Emitted(value: int) | Halted

  datatype Transition = Transition(next: Machine, event: Event)

  /** Why `compute_output` stopped: an output, a halt, a panic, or the fuel bound. */
  datatype Signal = Output(value: int) | Halt | Crash(fault: Fault) | OutOfFuel

  datatype Suspension = Suspension(machine: Machine, signal: Signal)

  /** `IntCode::init`: a fresh machine over the given memory. */
  function Init(ops: seq<int>): (m: Machine)
    ensures m.ops == ops && m.ip == 0 && m.relativeBase == 0
    ensures m.input == [] && m.inputPos == 0 && m.output == []
  {
    Machine(ops, 0, 0, 0, [], [])
  }

  /** `IntCode::input`: queue one more input value. */
  function Input(m: Machine, num: int): (m': Machine)
    ensures m'.input == m.input + [num]
    ensures m' == m.(input := m'.input)
  {
    m.(input := m.input + [num])
  }

  /** `IntCode::last_output`, which panics when nothing was output. */
  function LastOutput(m: Machine): (r: Result<int, Fault>)
    ensures r.Ok? <==> m.output != []
    ensures r.Ok? ==> r.value == m.output[|m.output| - 1]
    ensures r.Err? ==> r.error == NoOutput
  {
    if m.output == [] then Err(NoOutput) else Ok(m.output[|m.output| - 1])
  }

  function Load(ops: seq<int>, addr: int): (r: Result<int, Fault>)
    ensures r.Ok? <==> 0 <= addr < |ops|
    ensures r.Ok? ==> r.value == ops[addr]
    ensures r.Err? ==> r.error == BadAddress(addr)
  {
    if 0 <= addr < |ops| then Ok(ops[addr]) else Err(BadAddress(addr))
  }

  function Store(ops: seq<int>, addr: int, value: int): (r: Result<seq<int>, Fault>)
    ensures r.Ok? <==> 0 <= addr < |ops|
    ensures r.Ok? ==> |r.value| == |ops| && r.value[addr] == value
    ensures r.Ok? ==> forall i :: 0 <= i < |ops| && i != addr ==> r.value[i] == ops[i]
    ensures r.Err? ==> r.error == BadAddress(addr)
  {
    if 0 <= addr < |ops| then Ok(ops[addr := value]) else Err(BadAddress(addr))
  }

  /**
   * `resolve_op` for the parameter cell at `at`: the value the parameter
   * denotes. A positional parameter is an address, an immediate parameter is
   * the value itself, a relative parameter is an offset from the relative base.
   */
  function ResolveOp(m: Machine, at: int, mode: OpMode): (r: Result<int, Fault>)
    ensures r.Ok? ==> 0 <= at < |m.ops|
    ensures r.Ok? && mode == Positional ==> r == Load(m.ops, m.ops[at])
    ensures r.Ok? && mode == Immediate ==> r.value == m.ops[at]
    ensures r.Ok? && mode == Relative ==> r == Load(m.ops, m.relativeBase + m.ops[at])
  {
    var op :- Load(m.ops, at);
    match mode
    case Positional => Load(m.ops, op)
    case Immediate => Ok(op)
    case Relative => Load(m.ops, m.relativeBase + op)
  }

  /**
   * `op_ptr` for the parameter cell at `at`: the address the parameter
   * denotes as a write target; in immediate mode that is the parameter cell.
   */
  function OpPtr(m: Machine, at: int, mode: OpMode): (r: Result<int, Fault>)
    ensures r.Ok? <==> 0 <= at < |m.ops|
    ensures r.Ok? ==> r.value == (match mode
                                   case Positional => m.ops[at]
                                   case Immediate => at
                                   case Relative => m.relativeBase + m.ops[at])
  {
    var op :- Load(m.ops, at);
    match mode
    case Positional => Ok(op)
    case Immediate => Ok(at)
    case Relative => Ok(m.relativeBase + op)
  }

  predicate IsBinary(op: int) {
    op == ADD || op == MULTIPLY || op == LESS_THAN || op == EQUALS
  }

  /** The value a three-parameter instruction stores. */
  function Apply(op: int, a: int, b: int): int
    requires IsBinary(op)
  {
    if op == ADD then a + b
    else if op == MULTIPLY then a * b
    else if op == LESS_THAN then (if a < b then 1 else 0)
    else (if a == b then 1 else 0)
  }

  /** Add, multiply, less-than and equals, with `m.ip` at the opcode. */
  function Binary(m: Machine, ins: Instruction): Result<Transition, Fault>
    requires IsBinary(ins.opcode)
  {
    var a :- ResolveOp(m, m.ip + 1, ins.mode1);
    var b :- ResolveOp(m, m.ip + 2, ins.mode2);
    var rp :- OpPtr(m, m.ip + 3, ins.mode3);
    var ops :- Store(m.ops, rp, Apply(ins.opcode, a, b));
    Ok(Transition(m.(ops := ops, ip := m.ip + 4), Running))
  }

  /**
   * Input: an immediate target panics; the value is read before the target
   * is written, so an exhausted input panics before a bad target address.
   */
  function InputOp(m: Machine, ins: Instruction): Result<Transition, Fault>
  {
    if ins.mode1 == Immediate then Err(ImmediateInputTarget)
    else
      var index :- OpPtr(m, m.ip + 1, ins.mode1);
      if m.inputPos >= |m.input| then Err(InputExhausted)
      else
        var ops :- Store(m.ops, index, m.input[m.inputPos]);
        Ok(Transition(m.(ops := ops, ip := m.ip + 2, inputPos := m.inputPos + 1), Running))
  }

  function OutputOp(m: Machine, ins: Instruction): Result<Transition, Fault>
  {
    var out :- ResolveOp(m, m.ip + 1, ins.mode1);
    Ok(Transition(m.(ip := m.ip + 2, output := m.output + [out]), Emitted(out)))
  }

  /** Jump-if-true (`whenNonZero`) and jump-if-false. */
  function JumpOp(m: Machine, ins: Instruction, whenNonZero: bool): Result<Transition, Fault>
  {
    var a :- ResolveOp(m, m.ip + 1, ins.mode1);
    var b :- ResolveOp(m, m.ip + 2, ins.mode2);
    var target := if (a != 0) == whenNonZero then b else m.ip + 3;
    Ok(Transition(m.(ip := target), Running))
  }

  function AdjustOp(m: Machine, ins: Instruction): Result<Transition, Fault>
  {
    var a :- ResolveOp(m, m.ip + 1, ins.mode1);
    Ok(Transition(m.(ip := m.ip + 2, relativeBase := m.relativeBase + a), Running))
  }

  /** One iteration of the loop in `compute_output`. */
  function Step(m: Machine): Result<Transition, Fault>
  {
    var coded :- Load(m.ops, m.ip);
    var ins :- ParseOp(coded);
    Execute(m, ins)
  }

  /** The instruction `ins`, fetched at `m.ip`, executed. */
  function Execute(m: Machine, ins: Instruction): Result<Transition, Fault>
  {
    if ins.opcode == HCF then Ok(Transition(m.(ip := m.ip + 1), Halted))
    else if IsBinary(ins.opcode) then Binary(m, ins)
    else if ins.opcode == INPUT then InputOp(m, ins)
    else if ins.opcode == OUTPUT then OutputOp(m, ins)
    else if ins.opcode == JUMP_IF_TRUE then JumpOp(m, ins, true)
    else if ins.opcode == JUMP_IF_FALSE then JumpOp(m, ins, false)
    else if ins.opcode == ADJUST_RELATIVE_BASE then AdjustOp(m, ins)
    else Err(UnrecognizedInstruction(ins.opcode))
  }

  /**
   * `compute_output`: execute until an output or a halt, for at most `fuel`
   * instructions. A fault leaves the machine as it was before the faulting
   * instruction.
   */
  function ComputeOutput(m: Machine, fuel: nat): Suspension
    decreases fuel
  {
    if fuel == 0 then Suspension(m, OutOfFuel)
    else
      match Step(m)
      case Err(f) => Suspension(m, Crash(f))
      case Ok(t) =>
        match t.event
        case Running => ComputeOutput(t.next, fuel - 1)
        case Emitted(v) => Suspension(t.next, Output(v))
        case Halted => Suspension(t.next, Halt)
  }

  /** `run`: call `compute_output` until it stops producing outputs, at most `calls` times. */
  function Run(m: Machine, calls: nat, fuel: nat): Suspension
    decreases calls
  {
    if calls == 0 then Suspension(m, OutOfFuel)
    else
      var s := ComputeOutput(m, fuel);
      if s.signal.Output? then Run(s.machine, calls - 1, fuel) else s
  }

  /** A step that neither outputs nor halts leaves the rest of `compute_output` to the next machine. */
  lemma ComputeOutputRunning(m: Machine, fuel: nat, rest: nat)
    requires fuel == rest + 1 && Step(m).Ok? && Step(m).value.event.Running?
    ensures ComputeOutput(m, fuel) == ComputeOutput(Step(m).value.next, rest)
  {
  }

  /** A call of `compute_output` that produces an output leaves the other calls to the machine it stops in. */
  lemma RunOutput(m: Machine, calls: nat, rest: nat, fuel: nat)
    requires calls == rest + 1
    ensures ComputeOutput(m, fuel).signal.Output? ==> Run(m, calls, fuel) == Run(ComputeOutput(m, fuel).machine, rest, fuel)
    ensures !ComputeOutput(m, fuel).signal.Output? ==> Run(m, calls, fuel) == ComputeOutput(m, fuel)
  {
  }

  /** A token of the program text: `str::trim` then `str::parse::<i64>`. */
  function ParseToken(token: string): Option<int> {
    ParseInt(Trim(token))
  }

  /** A cell of the program text that is not a number. */
  datatype ParseError = MalformedCell

  /** Parses every token, or fails if one is malformed. */
  function ParseTokens(tokens: seq<string>): (r: Result<seq<int>, ParseError>)
    ensures r.Ok? <==> forall i :: 0 <= i < |tokens| ==> ParseToken(tokens[i]).Some?
    ensures r.Ok? ==> |r.value| == |tokens|
    ensures r.Ok? ==> forall i :: 0 <= i < |tokens| ==> r.value[i] == ParseToken(tokens[i]).value
  {
    if forall i :: 0 <= i < |tokens| ==> ParseToken(tokens[i]).Some? then
      Ok(seq(|tokens|, i requires 0 <= i < |tokens| && ParseToken(tokens[i]).Some? => ParseToken(tokens[i]).value))
    else
      Err(MalformedCell)
  }

  /**
   * `init_ops`: the comma-separated cells of the program, then zeros up to
   * `MEMORY_SIZE` cells; a program longer than that is not padded.
   */
  function InitOps(program: string): (r: Result<seq<int>, ParseError>)
    ensures r.Ok? <==> ParseTokens(Split(program, ",")).Ok?
    ensures r.Ok? ==> |r.value| == if |Split(program, ",")| < MEMORY_SIZE then MEMORY_SIZE else |Split(program, ",")|
    ensures r.Ok? ==> r.value[..|Split(program, ",")|] == ParseTokens(Split(program, ",")).value
    ensures r.Ok? ==> forall i :: |Split(program, ",")| <= i < |r.value| ==> r.value[i] == 0
  {
    var cells :- ParseTokens(Split(program, ","));
    var padding := if |cells| < MEMORY_SIZE then MEMORY_SIZE - |cells| else 0;
    Ok(cells + seq(padding, _ => 0))
  }
}
