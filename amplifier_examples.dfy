/**
 * The first example of the tests of 7/src/lib.rs, run on the model: an
 * amplifier that outputs ten times its signal plus its phase, so the chain
 * spells the phase setting as a decimal number and the search finds 43210.
 */
module AmplifierExamples {
  import opened Wrappers
  import opened IntcodeDecode
  import opened IntcodeMachine
  import X = IntcodeExamples
  import A = Amplifiers

  /** "3,15,3,16,1002,16,10,16,1,16,15,15,4,15,99,0,0" */
  const EXAMPLE: seq<int> := [3, 15, 3, 16, 1002, 16, 10, 16, 1, 16, 15, 15, 4, 15, 99, 0, 0]

  /** The machine of one amplifier with phase `p` and signal `s`, after `k` instructions. */
  function AmpState(ops: seq<int>, p: int, s: int, k: nat): Machine
    requires |ops| > 16
  {
    if k == 0 then Machine(ops, 0, 0, 0, [p, s], [])
    else if k == 1 then Machine(ops[15 := p], 2, 1, 0, [p, s], [])
    else if k == 2 then Machine(ops[15 := p][16 := s], 4, 2, 0, [p, s], [])
    else if k == 3 then Machine(ops[15 := p][16 := s * 10], 8, 2, 0, [p, s], [])
    else if k == 4 then Machine(ops[15 := s * 10 + p][16 := s * 10], 12, 2, 0, [p, s], [])
    else Machine(ops[15 := s * 10 + p][16 := s * 10], 14, 2, 0, [p, s], [s * 10 + p])
  }

  /** The five instruction cells of the example decode as input, input, multiply by an immediate, add and output. */
  lemma DecodesExample(input: int, multiply: int, add: int, output: int)
    requires input == 3 && multiply == 1002 && add == 1 && output == 4
    ensures ParseOp(input) == Ok(Instruction(INPUT, Positional, Positional, Positional))
    ensures ParseOp(multiply) == Ok(Instruction(MULTIPLY, Positional, Immediate, Positional))
    ensures ParseOp(add) == Ok(Instruction(ADD, Positional, Positional, Positional))
    ensures ParseOp(output) == Ok(Instruction(OUTPUT, Positional, Positional, Positional))
  {
    X.Decoded(input);
    X.Decoded(output);
    X.DecodedArith(multiply);
    X.DecodedArith(add);
  }

  /** The cells of the example other than the instruction cells, and what the instruction cells decode as. */
  predicate Loaded(ops: seq<int>) {
    |ops| > 16 &&
    ParseOp(ops[0]) == Ok(Instruction(INPUT, Positional, Positional, Positional)) && ops[1] == 15 &&
    ParseOp(ops[2]) == Ok(Instruction(INPUT, Positional, Positional, Positional)) && ops[3] == 16 &&
    ParseOp(ops[4]) == Ok(Instruction(MULTIPLY, Positional, Immediate, Positional)) && ops[5] == 16 && ops[6] == 10 && ops[7] == 16 &&
    ParseOp(ops[8]) == Ok(Instruction(ADD, Positional, Positional, Positional)) && ops[9] == 16 && ops[10] == 15 && ops[11] == 15 &&
    ParseOp(ops[12]) == Ok(Instruction(OUTPUT, Positional, Positional, Positional)) && ops[13] == 15
  }

  /** The two inputs: the phase to cell 15, the signal to cell 16. */
  lemma ReadsBoth(ops: seq<int>, p: int, s: int)
    requires Loaded(ops)
    ensures Step(AmpState(ops, p, s, 0)) == Ok(Transition(AmpState(ops, p, s, 1), Running))
    ensures Step(AmpState(ops, p, s, 1)) == Ok(Transition(AmpState(ops, p, s, 2), Running))
  {
    X.StepInput(AmpState(ops, p, s, 0));
    var m1 := AmpState(ops, p, s, 1);
    assert m1.ops[2] == ops[2] && m1.ops[3] == 16;
    X.StepInput(m1);
  }

  /** `1002,16,10,16`: the signal times ten. */
  lemma Scales(ops: seq<int>, p: int, s: int)
    requires Loaded(ops)
    ensures Step(AmpState(ops, p, s, 2)) == Ok(Transition(AmpState(ops, p, s, 3), Running))
  {
    var m2 := AmpState(ops, p, s, 2);
    assert m2.ops[4] == ops[4] && m2.ops[5] == 16 && m2.ops[6] == 10 && m2.ops[7] == 16 && m2.ops[16] == s;
    X.StepMultiplyImmediate(m2);
    assert m2.ops[16 := s * 10] == ops[15 := p][16 := s * 10];
  }

  /** `1,16,15,15`: the phase added. */
  lemma Adds(ops: seq<int>, p: int, s: int)
    requires Loaded(ops)
    ensures Step(AmpState(ops, p, s, 3)) == Ok(Transition(AmpState(ops, p, s, 4), Running))
  {
    var m3 := AmpState(ops, p, s, 3);
    assert m3.ops[8] == ops[8] && m3.ops[9] == 16 && m3.ops[10] == 15 && m3.ops[11] == 15;
    assert m3.ops[16] == s * 10 && m3.ops[15] == p;
    X.StepAdd(m3);
    assert m3.ops[15 := s * 10 + p] == ops[15 := s * 10 + p][16 := s * 10];
  }

  /** `4,15`: the result output. */
  lemma Emits(ops: seq<int>, p: int, s: int)
    requires Loaded(ops)
    ensures Step(AmpState(ops, p, s, 4)) == Ok(Transition(AmpState(ops, p, s, 5), Emitted(s * 10 + p)))
  {
    var m4 := AmpState(ops, p, s, 4);
    assert m4.ops[12] == ops[12] && m4.ops[13] == 15 && m4.ops[15] == s * 10 + p;
    X.StepOutput(m4);
    assert m4.output + [s * 10 + p] == [s * 10 + p];
    assert m4.(ip := 14, output := [s * 10 + p]) == AmpState(ops, p, s, 5);
  }

  /** Five instructions from the start the amplifier outputs ten times its signal plus its phase. */
  lemma Runs(ops: seq<int>, p: int, s: int, fuel: nat)
    requires Loaded(ops) && fuel >= 5
    ensures ComputeOutput(AmpState(ops, p, s, 0), fuel) == Suspension(AmpState(ops, p, s, 5), Output(s * 10 + p))
  {
    ReadsBoth(ops, p, s);
    X.Continues(AmpState(ops, p, s, 0), AmpState(ops, p, s, 1), fuel);
    X.Continues(AmpState(ops, p, s, 1), AmpState(ops, p, s, 2), fuel - 1);
    Computes(ops, p, s, fuel - 2);
  }

  /** Once both inputs are stored, three instructions later the result is output. */
  lemma Computes(ops: seq<int>, p: int, s: int, fuel: nat)
    requires Loaded(ops) && fuel >= 3
    ensures ComputeOutput(AmpState(ops, p, s, 2), fuel) == Suspension(AmpState(ops, p, s, 5), Output(s * 10 + p))
  {
    Scales(ops, p, s);
    Adds(ops, p, s);
    Emits(ops, p, s);
    X.Continues(AmpState(ops, p, s, 2), AmpState(ops, p, s, 3), fuel);
    X.Continues(AmpState(ops, p, s, 3), AmpState(ops, p, s, 4), fuel - 1);
    X.Stops(AmpState(ops, p, s, 4), Transition(AmpState(ops, p, s, 5), Emitted(s * 10 + p)), fuel - 2);
  }

  /** A program that starts with the example holds its instructions. */
  lemma ExampleLoaded(program: seq<int>)
    requires |program| > 16 && program[..17] == EXAMPLE
    ensures Loaded(program)
  {
    assert program[0] == 3 && program[1] == 15 && program[2] == 3 && program[3] == 16;
    assert program[4] == 1002 && program[5] == 16 && program[6] == 10 && program[7] == 16;
    assert program[8] == 1 && program[9] == 16 && program[10] == 15 && program[11] == 15;
    assert program[12] == 4 && program[13] == 15;
    DecodesExample(program[0], program[4], program[8], program[12]);
    assert ParseOp(program[2]) == ParseOp(program[0]);
  }

  /** One amplifier of the example outputs ten times its signal plus its phase. */
  lemma AmplifyExample(program: seq<int>, amp: nat, p: int, s: int, fuel: nat)
    requires Loaded(program) && fuel >= 5
    ensures A.Amplify(program, amp, p, s, fuel) == Ok(s * 10 + p)
  {
    assert Input(Input(Init(program), p), s) == AmpState(program, p, s, 0);
    Runs(program, p, s, fuel);
  }

  /** A sequence of digits read as a decimal number. */
  function Spell(digits: seq<int>): int {
    if digits == [] then 0 else Spell(digits[..|digits| - 1]) * 10 + digits[|digits| - 1]
  }

  /** On the example program the chain spells its phase setting. */
  lemma {:induction false} ChainSpells(program: seq<int>, phase: seq<int>, k: nat, fuel: nat)
    requires Loaded(program) && fuel >= 5
    requires k <= |phase|
    ensures A.Chain(program, phase, k, fuel) == Ok(Spell(phase[..k]))
  {
    if k > 0 {
      ChainSpells(program, phase, k - 1, fuel);
      AmplifyExample(program, k - 1, phase[k - 1], Spell(phase[..k - 1]), fuel);
      assert phase[..k][..k - 1] == phase[..k - 1];
    }
  }

  /** Five digits spelled out. */
  lemma SpellFive(phase: seq<int>)
    requires |phase| == 5
    ensures Spell(phase) == phase[0] * 10000 + phase[1] * 1000 + phase[2] * 100 + phase[3] * 10 + phase[4]
  {
    assert phase[..4][..3] == phase[..3];
    assert phase[..3][..2] == phase[..2];
    assert phase[..2][..1] == phase[..1];
    assert phase[..1][..0] == [];
    assert Spell(phase[..1]) == phase[0];
    assert Spell(phase[..2]) == phase[0] * 10 + phase[1];
    assert Spell(phase[..3]) == phase[0] * 100 + phase[1] * 10 + phase[2];
    assert Spell(phase[..4]) == phase[0] * 1000 + phase[1] * 100 + phase[2] * 10 + phase[3];
  }

  /** `example1`: the setting [4, 3, 2, 1, 0] gives 43210. */
  lemma Example1(program: seq<int>, fuel: nat)
    requires |program| > 16 && program[..17] == EXAMPLE && fuel >= 5
    ensures A.Chain(program, [4, 3, 2, 1, 0], A.AMP_COUNT, fuel) == Ok(43210)
  {
    ExampleLoaded(program);
    Example1Loaded(program, fuel);
  }

  lemma Example1Loaded(program: seq<int>, fuel: nat)
    requires Loaded(program) && fuel >= 5
    ensures A.Chain(program, [4, 3, 2, 1, 0], A.AMP_COUNT, fuel) == Ok(43210)
  {
    ChainSpells(program, [4, 3, 2, 1, 0], 5, fuel);
    assert [4, 3, 2, 1, 0][..5] == [4, 3, 2, 1, 0];
    SpellFive([4, 3, 2, 1, 0]);
  }

  /** Five distinct digits of 0..4 spell at most 43210, and only [4, 3, 2, 1, 0] spells it. */
  lemma SpellBound(phase: seq<int>)
    requires |phase| == A.AMP_COUNT && A.ContainsRange(phase, 0, 5)
    ensures Spell(phase) <= 43210
    ensures Spell(phase) == 43210 ==> phase == [4, 3, 2, 1, 0]
  {
    A.ValidIsPermutation(phase, 0);
    SpellFive(phase);
    var a, b, c, d, e := phase[0], phase[1], phase[2], phase[3], phase[4];
    assert a != b && a != c && a != d && a != e && b != c && b != d && b != e && c != d && c != e && d != e;
    if Spell(phase) == 43210 {
      assert a == 4 && b == 3 && c == 2 && d == 1 && e == 0;
      assert phase == [a, b, c, d, e];
    }
  }

  /** `example1_find`: the search over all settings finds 43210, on the setting [4, 3, 2, 1, 0]. */
  lemma Example1Find(program: seq<int>, fuel: nat)
    requires |program| > 16 && program[..17] == EXAMPLE && fuel >= 5
    ensures A.Search(0, A.ChainScore(program, fuel), A.SETTINGS) == Ok(A.Best(43210, [4, 3, 2, 1, 0]))
  {
    ExampleLoaded(program);
    Example1FindLoaded(program, fuel);
  }

  lemma Example1FindLoaded(program: seq<int>, fuel: nat)
    requires Loaded(program) && fuel >= 5
    ensures A.Search(0, A.ChainScore(program, fuel), A.SETTINGS) == Ok(A.Best(43210, [4, 3, 2, 1, 0]))
  {
    var score := A.ChainScore(program, fuel);
    NoFault(program, fuel);
    var k := A.SearchFindsMax(0, score, A.SETTINGS);
    var best := A.Search(0, score, A.SETTINGS).value;
    Example1Loaded(program, fuel);
    Valid43210();
    A.BestOfAll(0, score, [4, 3, 2, 1, 0]);
    ScoreSpells(program, best.phase, fuel);
    SpellBound(best.phase);
  }

  /** [4, 3, 2, 1, 0] is a valid setting. */
  lemma Valid43210()
    ensures A.ContainsRange([4, 3, 2, 1, 0], 0, 5)
  {
    var phase := [4, 3, 2, 1, 0];
    forall t | 0 <= t < 5 ensures t in phase {
      assert phase[4 - t] == t;
    }
  }

  /** On the example every setting has a score: its spelling. */
  lemma ScoreSpells(program: seq<int>, phase: seq<int>, fuel: nat)
    requires Loaded(program) && fuel >= 5 && |phase| == A.AMP_COUNT
    ensures A.ChainScore(program, fuel)(phase) == Ok(Spell(phase))
  {
    ChainSpells(program, phase, 5, fuel);
    assert phase[..5] == phase;
  }

  /** The search on the example meets no fault. */
  lemma NoFault(program: seq<int>, fuel: nat)
    requires Loaded(program) && fuel >= 5
    ensures A.Search(0, A.ChainScore(program, fuel), A.SETTINGS).Ok?
  {
    var score := A.ChainScore(program, fuel);
    if A.Search(0, score, A.SETTINGS).Err? {
      var m := A.SearchFault(0, score, A.SETTINGS);
      ScoreSpells(program, A.Setting(0, m), fuel);
      assert false;
    }
  }
}
