/**
 * The Intcode machine of 5/src/main.rs: 32-bit signed cells, positional and
 * immediate parameters only, and two closures for I/O. `read` is modelled
 * as a function of how many times it has been called before (a closure
 * returning a constant, as `main` and the test pass, is one such function);
 * the values given to `write` are collected in an output log.
 */
module Diagnostic {
  import opened Wrappers
  import opened RustInt
  import opened Text
  import IntcodeDecode

  const ADD := 1
  const MULTIPLY := 2
  const INPUT := 3
  const OUTPUT := 4
  const JUMP_IF_TRUE := 5
  const JUMP_IF_FALSE := 6
  const LESS_THAN := 7
  const EQUALS := 8
  const HCF := 99

  datatype OpMode = Positional | Immediate

  /** Everything that makes `compute` panic, as a value. */
  datatype Fault =
    | InvalidMode(digit: int)          // a mode digit other than 0 and 1
    | UnrecognizedInstruction(op: int) // an opcode outside 1..8 and 99
    | BadAddress(addr: int)            // an index outside memory; a negative one wraps to a huge `usize`

  function Discriminant(mode: OpMode): (d: int)
    ensures d == 0 || d == 1
  {
    match mode
    case Positional => 0
    case Immediate => 1
  }

  /** `OpMode::from`: digit 0 is positional, 1 immediate, anything else panics. */
  function ModeFrom(num: int): (r: Result<OpMode, Fault>)
    ensures r.Ok? <==> num == 0 || num == 1
    ensures r.Ok? ==> Discriminant(r.value) == num
    ensures r.Err? ==> r.error == InvalidMode(num)
  {
    if num == 0 then Ok(Positional)
    else if num == 1 then Ok(Immediate)
    else Err(InvalidMode(num))
  }

  datatype Instruction = Instruction(opcode: int, mode1: OpMode, mode2: OpMode, mode3: OpMode)

  /** The opcode of a cell as `parse_op` computes it: the two low decimal digits, by Rust's truncating operators. */
  function OpcodeOf(coded: int): int {
    NthDigit(0, coded) + 10 * NthDigit(1, coded)
  }

  /**
   * `parse_op`: the opcode and three mode digits. All three modes are
   * checked, in order, whatever the opcode, even though input, output and
   * every write target ignore theirs.
   */
  function ParseOp(coded: int): (r: Result<Instruction, Fault>)
    ensures r.Ok? <==> ((NthDigit(2, coded) == 0 || NthDigit(2, coded) == 1)
                     && (NthDigit(3, coded) == 0 || NthDigit(3, coded) == 1)
                     && (NthDigit(4, coded) == 0 || NthDigit(4, coded) == 1))
    ensures r.Ok? ==> Discriminant(r.value.mode1) == NthDigit(2, coded)
    ensures r.Ok? ==> Discriminant(r.value.mode2) == NthDigit(3, coded)
    ensures r.Ok? ==> Discriminant(r.value.mode3) == NthDigit(4, coded)
    ensures r.Ok? ==> r.value.opcode == OpcodeOf(coded)
  {
    var op := OpcodeOf(coded);
    var mode1 :- ModeFrom(NthDigit(2, coded));
    var mode2 :- ModeFrom(NthDigit(3, coded));
    var mode3 :- ModeFrom(NthDigit(4, coded));
    Ok(Instruction(op, mode1, mode2, mode3))
  }

  /**
   * The opcode is the cell's value modulo 100 for a non-negative cell; a
   * negative cell has a non-positive opcode, which no instruction has.
   */
  lemma OpcodeOfCell(coded: int)
    ensures coded >= 0 ==> OpcodeOf(coded) == coded % 100
    ensures coded < 0 ==> OpcodeOf(coded) <= 0
  {
    if coded >= 0 {
      LowDigits(coded);
    }
  }

  /** A non-negative cell's two low digits make its value modulo 100. */
  lemma LowDigits(coded: int)
    requires coded >= 0
    ensures OpcodeOf(coded) == coded % 100
  {
    NthDigitOfNatural(0, coded);
    NthDigitOfNatural(1, coded);
    var q, r := coded / 100, coded % 100;
    var s, t := r / 10, r % 10;
    assert coded == 10 * (10 * q + s) + t;
    DivLit(10 * q + s, t, 10);
    DivLit(q, s, 10);
  }

  /** The cell that `ParseOp` reads back as `ins`, for an opcode in 0..99. */
  function Encode(ins: Instruction): int {
    ins.opcode + 100 * Discriminant(ins.mode1) + 1000 * Discriminant(ins.mode2) + 10000 * Discriminant(ins.mode3)
  }

  /** The digits of an encoded instruction: its opcode, then its three mode digits. */
  lemma EncodedDigits(ins: Instruction)
    requires 0 <= ins.opcode < 100
    ensures OpcodeOf(Encode(ins)) == ins.opcode
    ensures NthDigit(2, Encode(ins)) == Discriminant(ins.mode1)
    ensures NthDigit(3, Encode(ins)) == Discriminant(ins.mode2)
    ensures NthDigit(4, Encode(ins)) == Discriminant(ins.mode3)
  {
    var d1, d2, d3 := Discriminant(ins.mode1), Discriminant(ins.mode2), Discriminant(ins.mode3);
    var c := ins.opcode + 100 * d1 + 1000 * d2 + 10000 * d3;
    IntcodeDecode.DigitsOfCell(ins.opcode, d1, d2, d3);
    OpcodeOfCell(c);
  }

  /** Decoding inverts encoding. */
  lemma DecodeEncode(ins: Instruction)
    requires 0 <= ins.opcode < 100
    ensures ParseOp(Encode(ins)) == Ok(ins)
  {
    EncodedDigits(ins);
    var r := ParseOp(Encode(ins));
    assert r.Ok?;
    SameDigit(r.value.mode1, ins.mode1);
    SameDigit(r.value.mode2, ins.mode2);
    SameDigit(r.value.mode3, ins.mode3);
  }

  /** A mode is determined by its digit. */
  lemma SameDigit(a: OpMode, b: OpMode)
    requires Discriminant(a) == Discriminant(b)
    ensures a == b
  {
  }

  /** A memory cell, or the panic of indexing outside memory. */
  function Load(ops: seq<int>, addr: int): (r: Result<int, Fault>)
    ensures r.Ok? <==> 0 <= addr < |ops|
    ensures r.Ok? ==> r.value == ops[addr]
    ensures r.Err? ==> r.error == BadAddress(addr)
  {
    if 0 <= addr < |ops| then Ok(ops[addr]) else Err(BadAddress(addr))
  }

  /**
   * `resolve_op` for the parameter cell at `index`: in immediate mode the
   * cell itself, in positional mode the cell it points at.
   */
  function ResolveOp(ops: seq<int>, index: int, mode: OpMode): (r: Result<int, Fault>)
    ensures r.Ok? ==> 0 <= index < |ops|
    ensures mode == Immediate ==> r == Load(ops, index)
    ensures mode == Positional && 0 <= index < |ops| ==> r == Load(ops, ops[index])
  {
    var op :- Load(ops, index);
    match mode
    case Immediate => Ok(op)
    case Positional => Load(ops, op)
  }

  /** A positional parameter denotes what an immediate parameter at the cell it points to denotes. */
  lemma PositionalIsIndirect(ops: seq<int>, index: int)
    requires 0 <= index < |ops|
    ensures ResolveOp(ops, index, Positional) == ResolveOp(ops, ops[index], Immediate)
  {
  }

  /** The one cell an instruction writes. */
  datatype Store = Store(addr: nat, value: int)

  /**
   * What an executed instruction does besides moving `ip`: at most one
   * store, one call of `read` or not, at most one value given to `write`.
   */
  datatype Effect = Effect(store: Option<Store>, ip: int, consumed: bool, written: Option<int>)

  datatype Action = Halt | Do(effect: Effect)

  predicate IsBinary(op: int) {
    op == ADD || op == MULTIPLY || op == LESS_THAN || op == EQUALS
  }

  predicate IsJump(op: int) {
    op == JUMP_IF_TRUE || op == JUMP_IF_FALSE
  }

  /** The value add, multiply, less-than and equals store. */
  function Apply(op: int, a: int, b: int): int
    requires IsBinary(op)
  {
    if op == ADD then a + b
    else if op == MULTIPLY then a * b
    else if op == LESS_THAN then (if a < b then 1 else 0)
    else (if a == b then 1 else 0)
  }

  /** Store helper: the effect of writing `value` at `addr` and moving on to `ip`, or the panic of a bad address. */
  function StoreAt(ops: seq<int>, addr: int, value: int, ip: int, consumed: bool): (r: Result<Action, Fault>)
    ensures r.Ok? ==> r.value.Do? && r.value.effect.store.Some? && r.value.effect.store.value.addr < |ops|
  {
    if 0 <= addr < |ops| then Ok(Do(Effect(Some(Store(addr, value)), ip, consumed, None)))
    else Err(BadAddress(addr))
  }

  /** Add, multiply, less-than and equals: the target is the third parameter cell's value, whatever its mode. */
  function Binary(ops: seq<int>, ip: int, ins: Instruction): (r: Result<Action, Fault>)
    requires IsBinary(ins.opcode)
    ensures r.Ok? ==> r.value.Do? && r.value.effect.store.Some? && r.value.effect.store.value.addr < |ops|
  {
    var a :- ResolveOp(ops, ip + 1, ins.mode1);
    var b :- ResolveOp(ops, ip + 2, ins.mode2);
    var rp :- Load(ops, ip + 3);
    StoreAt(ops, rp, Apply(ins.opcode, a, b), ip + 4, false)
  }

  /** Input: the `calls`-th value of `read` goes to the address in the parameter cell, whatever its mode. */
  function InputOp(ops: seq<int>, ip: int, calls: nat, read: nat -> int): (r: Result<Action, Fault>)
    ensures r.Ok? ==> r.value.Do? && r.value.effect.store.Some? && r.value.effect.store.value.addr < |ops|
  {
    var index :- Load(ops, ip + 1);
    StoreAt(ops, index, read(calls), ip + 2, true)
  }

  /** Output: the cell at the address in the parameter cell goes to `write`, whatever its mode. */
  function OutputOp(ops: seq<int>, ip: int): (r: Result<Action, Fault>)
  {
    var index :- Load(ops, ip + 1);
    var value :- Load(ops, index);
    Ok(Do(Effect(None, ip + 2, false, Some(value))))
  }

  /** Jump-if-true and jump-if-false: `ip` becomes the second operand when the jump is taken. */
  function JumpOp(ops: seq<int>, ip: int, ins: Instruction): (r: Result<Action, Fault>)
    requires IsJump(ins.opcode)
  {
    var a :- ResolveOp(ops, ip + 1, ins.mode1);
    var b :- ResolveOp(ops, ip + 2, ins.mode2);
    var taken := if ins.opcode == JUMP_IF_TRUE then a != 0 else a == 0;
    Ok(Do(Effect(None, if taken then b else ip + 3, false, None)))
  }

  /** The `match op` of `compute`, for the instruction `ins` fetched at `ip`. */
  function Execute(ops: seq<int>, ip: int, ins: Instruction, calls: nat, read: nat -> int): (r: Result<Action, Fault>)
    ensures r.Ok? && r.value.Do? && r.value.effect.store.Some? ==> r.value.effect.store.value.addr < |ops|
  {
    var op := ins.opcode;
    if op == HCF then Ok(Halt)
    else if IsBinary(op) then Binary(ops, ip, ins)
    else if op == INPUT then InputOp(ops, ip, calls, read)
    else if op == OUTPUT then OutputOp(ops, ip)
    else if IsJump(op) then JumpOp(ops, ip, ins)
    else Err(UnrecognizedInstruction(op))
  }

  /**
   * One pass of the `loop` in `compute`, evaluated against memory: the
   * instruction at `ip` decoded and executed. The `calls`-th call of
   * `read` supplies an input.
   */
  function Evaluate(ops: seq<int>, ip: int, calls: nat, read: nat -> int): (r: Result<Action, Fault>)
    ensures r.Ok? && r.value.Do? && r.value.effect.store.Some? ==> r.value.effect.store.value.addr < |ops|
  {
    var coded :- Load(ops, ip);
    var ins :- ParseOp(coded);
    Execute(ops, ip, ins, calls, read)
  }

  /**
   * The machine between instructions: memory, instruction pointer, how
   * many times `read` has been called, and what `write` has been given.
   */
  datatype Machine = Machine(ops: seq<int>, ip: int, calls: nat, output: seq<int>)

  function Perform(m: Machine, e: Effect): (m': Machine)
    requires e.store.Some? ==> e.store.value.addr < |m.ops|
  {
    Machine(
      if e.store.Some? then m.ops[e.store.value.addr := e.store.value.value] else m.ops,
      e.ip,
      if e.consumed then m.calls + 1 else m.calls,
      if e.written.Some? then m.output + [e.written.value] else m.output)
  }

  /** One instruction executed: the next machine, `None` on opcode 99, or the panic. */
  function Step(m: Machine, read: nat -> int): Result<Option<Machine>, Fault>
  {
    var action :- Evaluate(m.ops, m.ip, m.calls, read);
    match action
    case Halt => Ok(None)
    case Do(e) => Ok(Some(Perform(m, e)))
  }

  /** How `compute` ends: it returns, it panics, or the step bound runs out first. */
  datatype Outcome = Halted(m: Machine) | Crashed(fault: Fault) | OutOfSteps(m: Machine)

  /** `compute` from machine `m`, for at most `steps` instructions. */
  function Run(m: Machine, read: nat -> int, steps: nat): Outcome
    decreases steps, 0
  {
    if steps == 0 then OutOfSteps(m) else Resume(m, Step(m, read), read, steps - 1)
  }

  /** `compute` after one step from `m` gave `s`, with `rest` more instructions allowed. */
  function Resume(m: Machine, s: Result<Option<Machine>, Fault>, read: nat -> int, rest: nat): Outcome
    decreases rest, 1
  {
    match s
    case Err(f) => Crashed(f)
    case Ok(None) => Halted(m)
    case Ok(Some(next)) => Run(next, read, rest)
  }

  /** The decoded instruction at `m.ip`, when there is one. */
  predicate Decodes(m: Machine, op: int) {
    0 <= m.ip < |m.ops| && ParseOp(m.ops[m.ip]).Ok? && ParseOp(m.ops[m.ip]).value.opcode == op
  }

  /** `compute` returns exactly when it decodes opcode 99, and then changes nothing. */
  lemma HaltsOn99(m: Machine, read: nat -> int)
    ensures Step(m, read) == Ok(None) <==> Decodes(m, HCF)
  {
  }

  /** An opcode outside 1..8 and 99 panics with that opcode. */
  lemma UnknownOpcodePanics(m: Machine, read: nat -> int, op: int)
    requires Decodes(m, op) && !IsBinary(op) && !IsJump(op) && op != INPUT && op != OUTPUT && op != HCF
    ensures Step(m, read) == Err(UnrecognizedInstruction(op))
  {
  }

  /**
   * An instruction that does not jump moves `ip` past itself and its
   * parameters: four cells for add, multiply, less-than and equals, two
   * for input and output. A jump moves it to its second operand when
   * taken and three cells on otherwise.
   */
  lemma StepAdvances(m: Machine, read: nat -> int, op: int)
    requires Decodes(m, op) && Step(m, read).Ok? && Step(m, read).value.Some?
    ensures IsBinary(op) ==> Step(m, read).value.value.ip == m.ip + 4
    ensures op == INPUT || op == OUTPUT ==> Step(m, read).value.value.ip == m.ip + 2
    ensures IsJump(op) ==>
      var ins := ParseOp(m.ops[m.ip]).value;
      var a := ResolveOp(m.ops, m.ip + 1, ins.mode1);
      var b := ResolveOp(m.ops, m.ip + 2, ins.mode2);
      a.Ok? && b.Ok? &&
      Step(m, read).value.value.ip == (if (a.value != 0) == (op == JUMP_IF_TRUE) then b.value else m.ip + 3)
  {
    if IsBinary(op) {
      BinaryAdvances(m, read, op);
    } else if op == INPUT || op == OUTPUT {
      InputOutputAdvances(m, read, op);
    } else if IsJump(op) {
      JumpAdvances(m, read, op);
    }
  }

  /** The four-cell instructions move past their three parameters. */
  lemma BinaryAdvances(m: Machine, read: nat -> int, op: int)
    requires Decodes(m, op) && IsBinary(op) && Step(m, read).Ok? && Step(m, read).value.Some?
    ensures Step(m, read).value.value.ip == m.ip + 4
  {
    var ins := ParseOp(m.ops[m.ip]).value;
    assert Evaluate(m.ops, m.ip, m.calls, read) == Execute(m.ops, m.ip, ins, m.calls, read);
  }

  /** Input and output move past their one parameter. */
  lemma InputOutputAdvances(m: Machine, read: nat -> int, op: int)
    requires Decodes(m, op) && (op == INPUT || op == OUTPUT) && Step(m, read).Ok? && Step(m, read).value.Some?
    ensures Step(m, read).value.value.ip == m.ip + 2
  {
    var ins := ParseOp(m.ops[m.ip]).value;
    assert Evaluate(m.ops, m.ip, m.calls, read) == Execute(m.ops, m.ip, ins, m.calls, read);
  }

  /** A jump goes to its second operand when taken and past its two parameters otherwise. */
  lemma JumpAdvances(m: Machine, read: nat -> int, op: int)
    requires Decodes(m, op) && IsJump(op) && Step(m, read).Ok? && Step(m, read).value.Some?
    ensures var ins := ParseOp(m.ops[m.ip]).value;
      var a := ResolveOp(m.ops, m.ip + 1, ins.mode1);
      var b := ResolveOp(m.ops, m.ip + 2, ins.mode2);
      a.Ok? && b.Ok? &&
      Step(m, read).value.value.ip == (if (a.value != 0) == (op == JUMP_IF_TRUE) then b.value else m.ip + 3)
  {
    var ins := ParseOp(m.ops[m.ip]).value;
    assert Evaluate(m.ops, m.ip, m.calls, read) == Execute(m.ops, m.ip, ins, m.calls, read);
  }

  /**
   * Input and output ignore their mode digit. Input stores the next value
   * of `read` at the address in its parameter cell, calling `read` once;
   * output gives `write` the cell at the address in its parameter cell,
   * once. No other instruction calls either.
   */
  lemma StepInputOutput(m: Machine, read: nat -> int, op: int)
    requires Decodes(m, op) && Step(m, read).Ok? && Step(m, read).value.Some?
    ensures var next := Step(m, read).value.value;
      && next.calls == (if op == INPUT then m.calls + 1 else m.calls)
      && (op != OUTPUT ==> next.output == m.output)
      && (op == INPUT || op == OUTPUT ==> m.ip + 1 < |m.ops| && 0 <= m.ops[m.ip + 1] < |m.ops|)
      && (op == OUTPUT ==> m.ip + 1 < |m.ops| && 0 <= m.ops[m.ip + 1] < |m.ops| && next.output == m.output + [m.ops[m.ops[m.ip + 1]]])
      && (op == INPUT ==> m.ip + 1 < |m.ops| && 0 <= m.ops[m.ip + 1] < |m.ops| && next.ops == m.ops[m.ops[m.ip + 1] := read(m.calls)])
      && (op == OUTPUT || IsJump(op) ==> next.ops == m.ops)
  {
    var ins := ParseOp(m.ops[m.ip]).value;
    assert Evaluate(m.ops, m.ip, m.calls, read) == Execute(m.ops, m.ip, ins, m.calls, read);
    if op == INPUT {
    } else if op == OUTPUT {
    } else if IsJump(op) {
    }
  }

  /** A three-parameter instruction stores its result at the address in its third parameter cell, ignoring its mode. */
  lemma StepStores(m: Machine, read: nat -> int, op: int)
    requires Decodes(m, op) && IsBinary(op) && Step(m, read).Ok? && Step(m, read).value.Some?
    ensures var ins := ParseOp(m.ops[m.ip]).value;
      var a := ResolveOp(m.ops, m.ip + 1, ins.mode1);
      var b := ResolveOp(m.ops, m.ip + 2, ins.mode2);
      a.Ok? && b.Ok? && m.ip + 3 < |m.ops| && 0 <= m.ops[m.ip + 3] < |m.ops| &&
      Step(m, read).value.value.ops == m.ops[m.ops[m.ip + 3] := Apply(op, a.value, b.value)]
  {
  }

  /**
   * Over a whole run, `read` is only ever called in order and `write`'s log
   * only grows: the final log extends the first, and memory keeps its size.
   */
  lemma {:induction false} RunExtends(m: Machine, read: nat -> int, steps: nat)
    requires !Run(m, read, steps).Crashed?
    ensures var last := Run(m, read, steps).m;
      m.calls <= last.calls && m.output <= last.output && |last.ops| == |m.ops|
    decreases steps
  {
    if steps > 0 {
      match Step(m, read)
      case Ok(None) =>
      case Ok(Some(next)) =>
        RunExtends(next, read, steps - 1);
    }
  }

  /** A step that leads to a machine leaves the rest of the run to that machine. */
  lemma {:induction false} RunNext(m: Machine, read: nat -> int, steps: nat, next: Machine, rest: nat)
    requires steps == rest + 1 && Step(m, read) == Ok(Some(next))
    ensures Run(m, read, steps) == Run(next, read, rest)
  {
  }

  /** An evaluated effect carried out: the store made in place, the registers and the log updated. */
  method PerformInPlace(ops: array<int>, ip: int, calls: nat, output: seq<int>, e: Effect)
      returns (ip': int, calls': nat, output': seq<int>)
    requires e.store.Some? ==> e.store.value.addr < ops.Length
    modifies ops
    ensures Machine(ops[..], ip', calls', output') == Perform(Machine(old(ops[..]), ip, calls, output), e)
  {
    if e.store.Some? {
      ops[e.store.value.addr] := e.store.value.value;
    }
    ip' := e.ip;
    calls' := if e.consumed then calls + 1 else calls;
    output' := if e.written.Some? then output + [e.written.value] else output;
  }

  /**
   * One pass of the loop of `compute` on memory held in place: the
   * instruction at `ip` decoded and carried out. `done` holds how the run
   * ends when it ends here; otherwise the new registers and memory are the
   * next machine.
   */
  method Advance(ops: array<int>, ip: int, calls: nat, output: seq<int>, read: nat -> int)
      returns (done: Option<Outcome>, ip': int, calls': nat, output': seq<int>)
    modifies ops
    ensures Step(Machine(old(ops[..]), ip, calls, output), read).Err? ==>
      done == Some(Crashed(Step(Machine(old(ops[..]), ip, calls, output), read).error))
    ensures Step(Machine(old(ops[..]), ip, calls, output), read) == Ok(None) ==>
      done == Some(Halted(Machine(old(ops[..]), ip, calls, output))) && ops[..] == old(ops[..])
    ensures Step(Machine(old(ops[..]), ip, calls, output), read).Ok? && Step(Machine(old(ops[..]), ip, calls, output), read).value.Some? ==>
      done.None? && Step(Machine(old(ops[..]), ip, calls, output), read).value.value == Machine(ops[..], ip', calls', output')
  {
    var action := Evaluate(ops[..], ip, calls, read);
    if action.Err? {
      return Some(Crashed(action.error)), ip, calls, output;
    }
    if action.value.Halt? {
      return Some(Halted(Machine(ops[..], ip, calls, output))), ip, calls, output;
    }
    done := None;
    ip', calls', output' := PerformInPlace(ops, ip, calls, output, action.value.effect);
  }

  /**
   * `compute`: execute from `ip` 0 until opcode 99, writing memory in place,
   * for at most `steps` instructions. The result's machine holds the
   * output log and the final `ip`.
   */
  method Compute(ops: array<int>, read: nat -> int, steps: nat) returns (r: Outcome)
    modifies ops
    ensures r == Run(Machine(old(ops[..]), 0, 0, []), read, steps)
    ensures !r.Crashed? ==> ops[..] == r.m.ops
  {
    var ip, calls, output := 0, 0, [];
    var left := steps;
    ghost var outcome := Run(Machine(ops[..], ip, calls, output), read, steps);
    while left > 0
      invariant outcome == Run(Machine(ops[..], ip, calls, output), read, left)
      decreases left
    {
      ghost var m := Machine(ops[..], ip, calls, output);
      var done;
      done, ip, calls, output := Advance(ops, ip, calls, output, read);
      if done.Some? {
        return done.value;
      }
      var rest := left - 1;
      RunNext(m, read, left, Machine(ops[..], ip, calls, output), rest);
      left := rest;
    }
    return OutOfSteps(Machine(ops[..], ip, calls, output));
  }

  /** A cell of the program text that is not an `i32`. */
  datatype ParseError = NotAnInteger(token: string)

  /** `op_str.parse()`: the token as it is, without trimming. */
  function ParseCell(token: string, index: nat): (r: Result<int, ParseError>)
    ensures r.Ok? <==> ParseInt(token).Some?
    ensures r.Ok? ==> r.value == ParseInt(token).value
    ensures r.Err? ==> r.error == NotAnInteger(token)
  {
    match ParseInt(token)
    case Some(v) => Ok(v)
    case None => Err(NotAnInteger(token))
  }

  /** The cells of a program text: split at ',' and parse every piece. */
  function Cells(input: string): Result<seq<int>, ParseError> {
    ParseEach(Split(input, ","), ParseCell)
  }

  /**
   * `init_ops`: push the cells one by one; the first piece that does not
   * parse ends it. No padding is added.
   */
  method InitOps(input: string) returns (r: Result<seq<int>, ParseError>)
    ensures r == Cells(input)
    ensures r.Ok? ==> |r.value| == |Split(input, ",")|
  {
    var tokens := Split(input, ",");
    var ops: seq<int> := [];
    var k := 0;
    while k < |tokens|
      invariant k <= |tokens|
      invariant ParseEach(tokens[..k], ParseCell) == Ok(ops)
    {
      ParseEachExtend(tokens, ParseCell, k, ops);
      var op :- ParseCell(tokens[k], k);
      ops := ops + [op];
      k := k + 1;
    }
    assert tokens[..k] == tokens;
    return Ok(ops);
  }

  /** The program text of a list of cells, as `init_ops` expects it. */
  function ShowCells(cells: seq<int>): string
    requires cells != []
  {
    Join(seq(|cells|, i requires 0 <= i < |cells| => IntString(cells[i])), ",")
  }

  /** Reading back the text of a program gives the program. */
  lemma CellsShowCells(cells: seq<int>)
    requires cells != []
    ensures Cells(ShowCells(cells)) == Ok(cells)
  {
    var pieces := seq(|cells|, i requires 0 <= i < |cells| => IntString(cells[i]));
    forall i, j | 0 <= i < |pieces| && 0 <= j < |pieces[i]|
      ensures pieces[i][j] != ','
    {
      assert IsDigit(pieces[i][j]) || pieces[i][j] == '-';
    }
    SplitJoined(pieces, ',');
    forall i | 0 <= i < |pieces|
      ensures ParseCell(pieces[i], i) == Ok(cells[i])
    {
      ParseIntString(cells[i]);
    }
    ParseEachAllOk(pieces, ParseCell, cells);
  }

  /** A cell below 100 is an instruction with all three modes positional. */
  lemma DecodesPositional(op: int)
    requires 0 <= op < 100
    ensures ParseOp(op) == Ok(Instruction(op, Positional, Positional, Positional))
  {
    var ins := Instruction(op, Positional, Positional, Positional);
    assert Encode(ins) == op;
    DecodeEncode(ins);
  }

  /** A cell holding opcode `op` below 100 decodes to it with positional modes. */
  lemma DecodesAs(c: int, op: int)
    requires 0 <= op < 100 && c == op
    ensures ParseOp(c) == Ok(Instruction(op, Positional, Positional, Positional))
  {
    DecodesPositional(c);
  }

  /** The instruction at `m.ip` decodes to opcode `op` with all three modes positional. */
  predicate Fetches(m: Machine, op: int) {
    0 <= m.ip < |m.ops| && ParseOp(m.ops[m.ip]) == Ok(Instruction(op, Positional, Positional, Positional))
  }

  /** `3,p`: the next value of `read` goes to cell p. */
  lemma StepInput(m: Machine, read: nat -> int)
    requires Fetches(m, INPUT) && m.ip + 1 < |m.ops| && 0 <= m.ops[m.ip + 1] < |m.ops|
    ensures Step(m, read) == Ok(Some(m.(ops := m.ops[m.ops[m.ip + 1] := read(m.calls)], ip := m.ip + 2, calls := m.calls + 1)))
  {
    var e := Effect(Some(Store(m.ops[m.ip + 1], read(m.calls))), m.ip + 2, true, None);
    assert InputOp(m.ops, m.ip, m.calls, read) == Ok(Do(e));
  }

  /** `8,p,q,r`: cell r := (cell p == cell q). */
  lemma StepEquals(m: Machine, read: nat -> int)
    requires Fetches(m, EQUALS) && m.ip + 3 < |m.ops|
    requires 0 <= m.ops[m.ip + 1] < |m.ops| && 0 <= m.ops[m.ip + 2] < |m.ops| && 0 <= m.ops[m.ip + 3] < |m.ops|
    ensures Step(m, read) == Ok(Some(m.(ops := m.ops[m.ops[m.ip + 3] := if m.ops[m.ops[m.ip + 1]] == m.ops[m.ops[m.ip + 2]] then 1 else 0], ip := m.ip + 4)))
  {
    EvaluatesBinary(m, read, EQUALS);
  }

  /** A positional add, multiply, less-than or equals stores its value at the third parameter's address. */
  lemma EvaluatesBinary(m: Machine, read: nat -> int, op: int)
    requires IsBinary(op) && Fetches(m, op) && m.ip + 3 < |m.ops|
    requires 0 <= m.ops[m.ip + 1] < |m.ops| && 0 <= m.ops[m.ip + 2] < |m.ops| && 0 <= m.ops[m.ip + 3] < |m.ops|
    ensures Evaluate(m.ops, m.ip, m.calls, read)
      == Ok(Do(Effect(Some(Store(m.ops[m.ip + 3], Apply(op, m.ops[m.ops[m.ip + 1]], m.ops[m.ops[m.ip + 2]]))), m.ip + 4, false, None)))
  {
    var a, b := m.ops[m.ops[m.ip + 1]], m.ops[m.ops[m.ip + 2]];
    assert ResolveOp(m.ops, m.ip + 1, Positional) == Ok(a);
    assert ResolveOp(m.ops, m.ip + 2, Positional) == Ok(b);
    var e := Effect(Some(Store(m.ops[m.ip + 3], Apply(op, a, b))), m.ip + 4, false, None);
    assert Binary(m.ops, m.ip, Instruction(op, Positional, Positional, Positional)) == Ok(Do(e));
  }

  /** `4,p`: cell p goes to `write`. */
  lemma StepOutput(m: Machine, read: nat -> int)
    requires Fetches(m, OUTPUT) && m.ip + 1 < |m.ops| && 0 <= m.ops[m.ip + 1] < |m.ops|
    ensures Step(m, read) == Ok(Some(m.(ip := m.ip + 2, output := m.output + [m.ops[m.ops[m.ip + 1]]])))
  {
    var p := m.ops[m.ip + 1];
    assert Load(m.ops, m.ip + 1) == Ok(p);
    assert Load(m.ops, p) == Ok(m.ops[p]);
    var e := Effect(None, m.ip + 2, false, Some(m.ops[p]));
    assert OutputOp(m.ops, m.ip) == Ok(Do(e));
    assert Evaluate(m.ops, m.ip, m.calls, read) == Ok(Do(e));
  }

  /** `99`: `compute` returns. */
  lemma StepHalt(m: Machine, read: nat -> int)
    requires Fetches(m, HCF)
    ensures Step(m, read) == Ok(None)
  {
  }

  /**
   * The test program "3,9,8,9,10,9,4,9,99,-1,8": with `read` answering 8
   * it writes 1, the comparison's result, and returns after four
   * instructions.
   */
  lemma EqualsEightOutputsOne(ops: seq<int>, read: nat -> int)
    requires ops == [3, 9, 8, 9, 10, 9, 4, 9, 99, -1, 8]
    requires read(0) == 8
    ensures Run(Machine(ops, 0, 0, []), read, 4) == Halted(Machine(ops[9 := 1], 8, 1, [1]))
  {
    assert |ops| == 11;
    assert ops[1] == 9 && ops[3] == 9 && ops[4] == 10 && ops[5] == 9 && ops[7] == 9 && ops[10] == 8;
    assert ops[0] == INPUT && ops[2] == EQUALS && ops[6] == OUTPUT && ops[8] == HCF;
    EqualsEightDecodes(ops[0], ops[2], ops[6], ops[8]);
    EqualsEightRun(ops, read);
  }

  /** The program's four instruction cells. */
  lemma EqualsEightDecodes(input: int, equals: int, output: int, halt: int)
    requires input == INPUT && equals == EQUALS && output == OUTPUT && halt == HCF
    ensures ParseOp(input) == Ok(Instruction(INPUT, Positional, Positional, Positional))
    ensures ParseOp(equals) == Ok(Instruction(EQUALS, Positional, Positional, Positional))
    ensures ParseOp(output) == Ok(Instruction(OUTPUT, Positional, Positional, Positional))
    ensures ParseOp(halt) == Ok(Instruction(HCF, Positional, Positional, Positional))
  {
    DecodesAs(input, INPUT);
    DecodesAs(equals, EQUALS);
    DecodesAs(output, OUTPUT);
    DecodesAs(halt, HCF);
  }

  lemma EqualsEightRun(ops: seq<int>, read: nat -> int)
    requires |ops| == 11 && read(0) == 8
    requires ParseOp(ops[0]) == Ok(Instruction(INPUT, Positional, Positional, Positional))
    requires ParseOp(ops[2]) == Ok(Instruction(EQUALS, Positional, Positional, Positional))
    requires ParseOp(ops[6]) == Ok(Instruction(OUTPUT, Positional, Positional, Positional))
    requires ParseOp(ops[8]) == Ok(Instruction(HCF, Positional, Positional, Positional))
    requires ops[1] == 9 && ops[3] == 9 && ops[4] == 10 && ops[5] == 9 && ops[7] == 9 && ops[10] == 8
    ensures Run(Machine(ops, 0, 0, []), read, 4) == Halted(Machine(ops[9 := 1], 8, 1, [1]))
  {
    var m0 := Machine(ops, 0, 0, []);
    var m1 := Machine(ops[9 := 8], 2, 1, []);
    var m2 := Machine(ops[9 := 1], 6, 1, []);
    var m3 := Machine(ops[9 := 1], 8, 1, [1]);
    StepInput(m0, read);
    RunNext(m0, read, 4, m1, 3);
    assert m1.ops[2] == ops[2] && m1.ops[3] == 9 && m1.ops[4] == 10 && m1.ops[5] == 9 && m1.ops[9] == 8 && m1.ops[10] == 8;
    StepEquals(m1, read);
    assert m1.ops[9 := 1] == m2.ops;
    RunNext(m1, read, 3, m2, 2);
    assert m2.ops[6] == ops[6] && m2.ops[7] == 9 && m2.ops[9] == 1;
    StepOutput(m2, read);
    assert m2.output + [1] == [1];
    RunNext(m2, read, 2, m3, 1);
    assert m3.ops[8] == ops[8];
    StepHalt(m3, read);
  }
}
