/**
 * Instruction decoding of the Intcode machine (intcode/src/lib.rs): an
 * instruction cell holds the opcode in its two low decimal digits and one
 * addressing-mode digit per parameter above them.
 */
module IntcodeDecode {
  import opened Wrappers
  import opened RustInt

  const ADD := 1
  const MULTIPLY := 2
  const INPUT := 3
  const OUTPUT := 4
  const JUMP_IF_TRUE := 5
  const JUMP_IF_FALSE := 6
  const LESS_THAN := 7
  const EQUALS := 8
  const ADJUST_RELATIVE_BASE := 9
  const HCF := 99

  datatype OpMode = Positional | Immediate | Relative

  /** Everything that makes the machine panic, as a value. */
  datatype Fault =
    | InvalidMode(digit: int)          // a mode digit other than 0, 1, 2
    | UnrecognizedInstruction(op: int) // an opcode outside 1..9 and 99
    | BadAddress(addr: int)            // a read or write outside memory (a negative address too)
    | ImmediateInputTarget             // input instruction with an immediate-mode target
    | InputExhausted                   // input instruction with no unread input left
    | NoOutput                         // last output asked of a machine that produced none

  /** The enum discriminant of a mode: the digit that selects it. */
  function Discriminant(mode: OpMode): (d: int)
    ensures 0 <= d <= 2
  {
    match mode
    case Positional => 0
    case Immediate => 1
    case Relative => 2
  }

  /** `OpMode::from`: digits 0, 1, 2 select a mode, any other value panics. */
  function ModeFrom(num: int): (r: Result<OpMode, Fault>)
    ensures r.Ok? <==> 0 <= num <= 2
    ensures r.Ok? ==> Discriminant(r.value) == num
    ensures r.Err? ==> r.error == InvalidMode(num)
  {
    match num
    case 0 => Ok(Positional)
    case 1 => Ok(Immediate)
    case 2 => Ok(Relative)
    case _ => Err(InvalidMode(num))
  }

  datatype Instruction = Instruction(opcode: int, mode1: OpMode, mode2: OpMode, mode3: OpMode)

  /**
   * `parse_op`: opcode = cell % 100 (Rust remainder), modes from decimal
   * digits 2, 3 and 4. Every mode digit is checked, whatever the opcode.
   */
  function ParseOp(coded: int): (r: Result<Instruction, Fault>)
    ensures r.Ok? <==> 0 <= NthDigit(2, coded) <= 2 && 0 <= NthDigit(3, coded) <= 2 && 0 <= NthDigit(4, coded) <= 2
    ensures r.Ok? ==> r.value.opcode == TruncRem(coded, 100)
    ensures r.Ok? ==> Discriminant(r.value.mode1) == NthDigit(2, coded)
    ensures r.Ok? ==> Discriminant(r.value.mode2) == NthDigit(3, coded)
    ensures r.Ok? ==> Discriminant(r.value.mode3) == NthDigit(4, coded)
  {
    var op := TruncRem(coded, 100);
    var mode1 :- ModeFrom(NthDigit(2, coded));
    var mode2 :- ModeFrom(NthDigit(3, coded));
    var mode3 :- ModeFrom(NthDigit(4, coded));
    Ok(Instruction(op, mode1, mode2, mode3))
  }

  /** The cell that `ParseOp` reads back as `ins`, for an opcode in 0..99. */
  function Encode(ins: Instruction): int {
    ins.opcode + 100 * Discriminant(ins.mode1) + 1000 * Discriminant(ins.mode2) + 10000 * Discriminant(ins.mode3)
  }

  /** The digits of `op + 100*d1 + 1000*d2 + 10000*d3` are read back one by one. */
  lemma DigitsOfCell(op: int, d1: int, d2: int, d3: int)
    requires 0 <= op < 100 && 0 <= d1 < 10 && 0 <= d2 < 10 && 0 <= d3 < 10
    ensures TruncRem(op + 100 * d1 + 1000 * d2 + 10000 * d3, 100) == op
    ensures NthDigit(2, op + 100 * d1 + 1000 * d2 + 10000 * d3) == d1
    ensures NthDigit(3, op + 100 * d1 + 1000 * d2 + 10000 * d3) == d2
    ensures NthDigit(4, op + 100 * d1 + 1000 * d2 + 10000 * d3) == d3
  {
    var c := op + 100 * d1 + 1000 * d2 + 10000 * d3;
    Pow10Values();
    DivLit(d1 + 10 * d2 + 100 * d3, op, 100);
    DivLit(d2 + 10 * d3, op + 100 * d1, 1000);
    DivLit(d3, op + 100 * d1 + 1000 * d2, 10000);
    DivLit(d2 + 10 * d3, d1, 10);
    DivLit(d3, d2, 10);
    DivLit(0, d3, 10);
    NthDigitOfNatural(2, c);
    NthDigitOfNatural(3, c);
    NthDigitOfNatural(4, c);
  }

  /** Decoding inverts encoding. */
  lemma DecodeEncode(ins: Instruction)
    requires 0 <= ins.opcode < 100
    ensures ParseOp(Encode(ins)) == Ok(ins)
  {
    var c := Encode(ins);
    DigitsOfCell(ins.opcode, Discriminant(ins.mode1), Discriminant(ins.mode2), Discriminant(ins.mode3));
    ModeRoundTrip(ins.mode1);
    ModeRoundTrip(ins.mode2);
    ModeRoundTrip(ins.mode3);
    assert ModeFrom(NthDigit(2, c)) == Ok(ins.mode1);
    assert ModeFrom(NthDigit(3, c)) == Ok(ins.mode2);
    assert ModeFrom(NthDigit(4, c)) == Ok(ins.mode3);
  }

  /** A mode's digit selects that mode again. */
  lemma ModeRoundTrip(mode: OpMode)
    ensures ModeFrom(Discriminant(mode)) == Ok(mode)
  {
  }

  /** Encoding inverts decoding for every non-negative cell below 100000. */
  lemma EncodeDecode(coded: int)
    requires 0 <= coded < 100000 && ParseOp(coded).Ok?
    ensures Encode(ParseOp(coded).value) == coded
  {
    Pow10Values();
    DivDiv(coded, 100);
    DivDiv(coded, 1000);
    var q2, q3, q4 := coded / 100, coded / 1000, coded / 10000;
    assert NthDigit(2, coded) == q2 % 10;
    assert NthDigit(3, coded) == q3 % 10;
    assert NthDigit(4, coded) == q4 % 10;
    assert q4 < 10;
    assert coded == 100 * q2 + coded % 100;
    assert q2 == 10 * q3 + q2 % 10;
    assert q3 == 10 * q4 + q3 % 10;
  }

  /** The examples: 109 is "adjust relative base, immediate", and the digits of 43210. */
  lemma DecodeExamples()
    ensures ParseOp(109) == Ok(Instruction(ADJUST_RELATIVE_BASE, Immediate, Positional, Positional))
    ensures forall k :: 0 <= k <= 4 ==> NthDigit(k, 43210) == k
    ensures ParseOp(301) == Err(InvalidMode(3))
  {
    Pow10Values();
    assert Pow10(1) == 10;
    NthDigitOfNatural(0, 43210);
    NthDigitOfNatural(1, 43210);
    NthDigitOfNatural(2, 43210);
    NthDigitOfNatural(3, 43210);
    NthDigitOfNatural(4, 43210);
    NthDigitOfNatural(2, 109);
    NthDigitOfNatural(3, 109);
    NthDigitOfNatural(4, 109);
    NthDigitOfNatural(2, 301);
  }
}
