/**
 * `IntCode` of intcode/src/lib.rs: a machine whose memory is updated in
 * place. Every method is proved to move the machine exactly as the
 * functions of `IntcodeMachine` say; a method that faults leaves the
 * machine as it found it.
 */
module Intcode {
  import opened Wrappers
  import opened Text
  import opened IntcodeDecode
  import M = IntcodeMachine

  /** The step `r` took the machine from `before` to `after` as `spec` prescribes. */
  ghost predicate Follows(before: M.Machine, spec: Result<M.Transition, Fault>, r: Result<M.Event, Fault>, after: M.Machine) {
    match spec
    case Ok(t) => r == Ok(t.event) && after == t.next
    case Err(f) => r == Err(f) && after == before
  }

  class IntCode {
    const ops: array<int>
    var ip: int
    var inputPos: nat
    var relativeBase: int
    var input: seq<int>
    var output: seq<int>

    ghost function State(): M.Machine
      reads this, ops
    {
      M.Machine(ops[..], ip, inputPos, relativeBase, input, output)
    }

    /** `IntCode::init`. */
    constructor Init(program: seq<int>)
      ensures State() == M.Init(program)
      ensures fresh(ops)
    {
      ops := new int[|program|](i requires 0 <= i < |program| => program[i]);
      ip := 0;
      inputPos := 0;
      relativeBase := 0;
      input := [];
      output := [];
    }

    /** `IntCode::input`. */
    method Input(num: int)
      modifies this
      ensures State() == M.Input(old(State()), num)
    {
      input := input + [num];
    }

    /** `IntCode::last_output`. */
    method LastOutput() returns (r: Result<int, Fault>)
      ensures r == M.LastOutput(State())
    {
      if output == [] {
        return Err(NoOutput);
      }
      return Ok(output[|output| - 1]);
    }

    method Fetch(addr: int) returns (r: Result<int, Fault>)
      ensures r == M.Load(ops[..], addr)
    {
      if 0 <= addr < ops.Length {
        return Ok(ops[addr]);
      }
      return Err(BadAddress(addr));
    }

    /** `resolve_op` on the parameter cell `at`. */
    method Resolve(at: int, mode: OpMode) returns (r: Result<int, Fault>)
      ensures r == M.ResolveOp(State(), at, mode)
    {
      var op :- Fetch(at);
      match mode
      case Positional => r := Fetch(op);
      case Immediate => r := Ok(op);
      case Relative => r := Fetch(relativeBase + op);
    }

    /** `op_ptr` on the parameter cell `at`. */
    method Pointer(at: int, mode: OpMode) returns (r: Result<int, Fault>)
      ensures r == M.OpPtr(State(), at, mode)
    {
      var op :- Fetch(at);
      match mode
      case Positional => r := Ok(op);
      case Immediate => r := Ok(at);
      case Relative => r := Ok(relativeBase + op);
    }

    method Write(addr: int, value: int) returns (r: Result<(), Fault>)
      modifies ops
      ensures M.Store(old(ops[..]), addr, value).Ok? ==> r.Ok? && ops[..] == M.Store(old(ops[..]), addr, value).value
      ensures M.Store(old(ops[..]), addr, value).Err? ==> r == Err(BadAddress(addr)) && ops[..] == old(ops[..])
    {
      if !(0 <= addr < ops.Length) {
        return Err(BadAddress(addr));
      }
      ops[addr] := value;
      return Ok(());
    }

    method ExecBinary(ins: Instruction) returns (r: Result<M.Event, Fault>)
      requires M.IsBinary(ins.opcode)
      modifies this, ops
      ensures Follows(old(State()), M.Binary(old(State()), ins), r, State())
    {
      var a :- Resolve(ip + 1, ins.mode1);
      var b :- Resolve(ip + 2, ins.mode2);
      var rp :- Pointer(ip + 3, ins.mode3);
      var _ :- Write(rp, M.Apply(ins.opcode, a, b));
      ip := ip + 4;
      return Ok(M.Running);
    }

    method ExecInput(ins: Instruction) returns (r: Result<M.Event, Fault>)
      modifies this, ops
      ensures Follows(old(State()), M.InputOp(old(State()), ins), r, State())
    {
      if ins.mode1 == Immediate {
        return Err(ImmediateInputTarget);
      }
      var index :- Pointer(ip + 1, ins.mode1);
      if inputPos >= |input| {
        return Err(InputExhausted);
      }
      var _ :- Write(index, input[inputPos]);
      ip := ip + 2;
      inputPos := inputPos + 1;
      return Ok(M.Running);
    }

    method ExecOutput(ins: Instruction) returns (r: Result<M.Event, Fault>)
      modifies this
      ensures Follows(old(State()), M.OutputOp(old(State()), ins), r, State())
    {
      var out :- Resolve(ip + 1, ins.mode1);
      ip := ip + 2;
      output := output + [out];
      return Ok(M.Emitted(out));
    }

    method ExecJump(ins: Instruction, whenNonZero: bool) returns (r: Result<M.Event, Fault>)
      modifies this
      ensures Follows(old(State()), M.JumpOp(old(State()), ins, whenNonZero), r, State())
    {
      var a :- Resolve(ip + 1, ins.mode1);
      var b :- Resolve(ip + 2, ins.mode2);
      if (a != 0) == whenNonZero {
        ip := b;
      } else {
        ip := ip + 3;
      }
      return Ok(M.Running);
    }

    method ExecAdjust(ins: Instruction) returns (r: Result<M.Event, Fault>)
      modifies this
      ensures Follows(old(State()), M.AdjustOp(old(State()), ins), r, State())
    {
      var a :- Resolve(ip + 1, ins.mode1);
      ip := ip + 2;
      relativeBase := relativeBase + a;
      return Ok(M.Running);
    }

    /** One iteration of the loop in `compute_output`. */
    method Execute() returns (r: Result<M.Event, Fault>)
      modifies this, ops
      ensures Follows(old(State()), M.Step(old(State())), r, State())
    {
      var coded :- Fetch(ip);
      var ins :- ParseOp(coded);
      if ins.opcode == HCF {
        ip := ip + 1;
        r := Ok(M.Halted);
      } else if M.IsBinary(ins.opcode) {
        r := ExecBinary(ins);
      } else if ins.opcode == INPUT {
        r := ExecInput(ins);
      } else if ins.opcode == OUTPUT {
        r := ExecOutput(ins);
      } else if ins.opcode == JUMP_IF_TRUE {
        r := ExecJump(ins, true);
      } else if ins.opcode == JUMP_IF_FALSE {
        r := ExecJump(ins, false);
      } else if ins.opcode == ADJUST_RELATIVE_BASE {
        r := ExecAdjust(ins);
      } else {
        r := Err(UnrecognizedInstruction(ins.opcode));
      }
    }

    /** `compute_output`, bounded by `fuel` executed instructions. */
    method ComputeOutput(fuel: nat) returns (signal: M.Signal)
      modifies this, ops
      ensures M.Suspension(State(), signal) == M.ComputeOutput(old(State()), fuel)
    {
      var left: nat := fuel;
      while true
        invariant left <= fuel
        invariant M.ComputeOutput(old(State()), fuel) == M.ComputeOutput(State(), left)
        decreases left
      {
        if left == 0 {
          return M.OutOfFuel;
        }
        ghost var before := State();
        var r := Execute();
        match r
        case Err(f) =>
          return M.Crash(f);
        case Ok(Running) =>
          var rest := left - 1;
          M.ComputeOutputRunning(before, left, rest);
          left := rest;
        case Ok(Emitted(v)) =>
          return M.Output(v);
        case Ok(Halted) =>
          return M.Halt;
      }
    }

    /** `run`, bounded by `calls` calls of `compute_output`. */
    method Run(calls: nat, fuel: nat) returns (signal: M.Signal)
      modifies this, ops
      ensures M.Suspension(State(), signal) == M.Run(old(State()), calls, fuel)
    {
      var left: nat := calls;
      while true
        invariant left <= calls
        invariant M.Run(old(State()), calls, fuel) == M.Run(State(), left, fuel)
        decreases left
      {
        if left == 0 {
          return M.OutOfFuel;
        }
        ghost var before := State();
        signal := ComputeOutput(fuel);
        var rest := left - 1;
        M.RunOutput(before, left, rest, fuel);
        if !signal.Output? {
          return;
        }
        left := rest;
      }
    }
  }

  /** `IntCode::new`: a machine over the parsed program; a malformed cell panics. */
  method New(program: string) returns (r: Result<IntCode, M.ParseError>)
    ensures r.Err? <==> M.InitOps(program).Err?
    ensures r.Ok? ==> fresh(r.value) && fresh(r.value.ops)
    ensures r.Ok? ==> r.value.State() == M.Init(M.InitOps(program).value)
  {
    var ops :- InitOps(program);
    var computer := new IntCode.Init(ops);
    return Ok(computer);
  }

  /** `init_ops`: parse the cells one by one, then pad with zeros. */
  method InitOps(program: string) returns (r: Result<seq<int>, M.ParseError>)
    ensures r == M.InitOps(program)
  {
    var cells :- ParseCells(Split(program, ","));
    var ops := Pad(cells);
    ghost var padding := if |cells| < M.MEMORY_SIZE then M.MEMORY_SIZE - |cells| else 0;
    assert ops == cells + seq(padding, _ => 0) by {
      assert ops == ops[..|cells|] + ops[|cells|..];
      assert ops[|cells|..] == seq(padding, _ => 0);
    }
    return Ok(ops);
  }

  /** The parsing loop of `init_ops`; `?` returns the first parse error. */
  method ParseCells(tokens: seq<string>) returns (r: Result<seq<int>, M.ParseError>)
    ensures r == M.ParseTokens(tokens)
  {
    var ops: seq<int> := [];
    for k := 0 to |tokens|
      invariant |ops| == k
      invariant forall i :: 0 <= i < k ==> M.ParseToken(tokens[i]) == Some(ops[i])
    {
      var op := M.ParseToken(tokens[k]);
      if op.None? {
        Malformed(tokens, k);
        return Err(M.MalformedCell);
      }
      ParsedOneMore(tokens, ops, op.value);
      ops := ops + [op.value];
    }
    AllParsed(tokens, ops);
    return Ok(ops);
  }

  /** One more token parsed: the cells still match the tokens they came from. */
  lemma ParsedOneMore(tokens: seq<string>, ops: seq<int>, v: int)
    requires |ops| < |tokens| && M.ParseToken(tokens[|ops|]) == Some(v)
    requires forall i :: 0 <= i < |ops| ==> M.ParseToken(tokens[i]) == Some(ops[i])
    ensures forall i :: 0 <= i < |ops| + 1 ==> M.ParseToken(tokens[i]) == Some((ops + [v])[i])
  {
  }

  lemma Malformed(tokens: seq<string>, k: nat)
    requires k < |tokens| && M.ParseToken(tokens[k]).None?
    ensures M.ParseTokens(tokens) == Err(M.MalformedCell)
  {
  }

  lemma AllParsed(tokens: seq<string>, ops: seq<int>)
    requires |ops| == |tokens|
    requires forall i :: 0 <= i < |tokens| ==> M.ParseToken(tokens[i]) == Some(ops[i])
    ensures M.ParseTokens(tokens) == Ok(ops)
  {
    var parsed := M.ParseTokens(tokens);
    assert forall i :: 0 <= i < |ops| ==> ops[i] == parsed.value[i];
    assert ops == parsed.value;
  }

  /** The padding loop of `init_ops`. */
  method Pad(cells: seq<int>) returns (ops: seq<int>)
    ensures |ops| == if |cells| < M.MEMORY_SIZE then M.MEMORY_SIZE else |cells|
    ensures ops[..|cells|] == cells
    ensures forall i :: |cells| <= i < |ops| ==> ops[i] == 0
  {
    ops := cells;
    while |ops| < M.MEMORY_SIZE
      invariant |cells| <= |ops|
      invariant |cells| < M.MEMORY_SIZE ==> |ops| <= M.MEMORY_SIZE
      invariant |cells| >= M.MEMORY_SIZE ==> ops == cells
      invariant ops[..|cells|] == cells
      invariant forall i :: |cells| <= i < |ops| ==> ops[i] == 0
      decreases M.MEMORY_SIZE - |ops|
    {
      ops := ops + [0];
    }
  }
}
