/**
 * The amplifiers of 7/src/lib.rs: five copies of one Intcode program, each
 * primed with a phase setting. In the chain every amplifier runs once on
 * the previous one's signal; in the feedback ring they take turns until
 * one halts. The search tries every phase setting in the order of the
 * source's five nested loops.
 */
module Amplifiers {
  import opened Wrappers
  import opened IntcodeDecode
  import M = IntcodeMachine
  import P = IntcodeProperties
  import Intcode

  const AMP_COUNT: nat := 5

  /** Why a signal could not be computed. */
  datatype AmpFault =
    | Crashed(amp: nat, fault: Fault) // the machine of amplifier `amp` panicked
    | NoSignal(amp: nat)              // `expect("no output")`: amplifier `amp` halted without output
    | OutOfFuel(amp: nat)             // the instruction bound ran out in amplifier `amp`
    | OutOfTurns                      // the ring took more turns than allowed
    | NoLastOutput                    // `last_output` of the last amplifier, which never output
    | BadProgram                      // `IntCode::new` on a malformed program

  // ---------------------------------------------------------------- phases

  /** Every value of lo..hi occurs in the setting. */
  ghost predicate ContainsRange(phase: seq<int>, lo: int, hi: int) {
    forall t :: lo <= t < hi ==> t in phase
  }

  /** The `contains_all &= phase.contains(&setting)` loop over lo..hi. */
  method ContainsAll(phase: seq<int>, lo: int, hi: int) returns (r: bool)
    requires lo <= hi
    ensures r <==> ContainsRange(phase, lo, hi)
  {
    var containsAll := true;
    for setting := lo to hi
      invariant containsAll <==> ContainsRange(phase, lo, setting)
    {
      containsAll := containsAll && setting in phase;
    }
    return containsAll;
  }

  /** `valid_phase_setting`: each of 0..4 occurs. */
  method ValidPhaseSetting(phase: seq<int>) returns (r: bool)
    requires |phase| == AMP_COUNT
    ensures r <==> ContainsRange(phase, 0, 5)
  {
    r := ContainsAll(phase, 0, 5);
  }

  /** `valid_feedback_phase_setting`: each of 5..9 occurs. */
  method ValidFeedbackPhaseSetting(phase: seq<int>) returns (r: bool)
    requires |phase| == AMP_COUNT
    ensures r <==> ContainsRange(phase, 5, 10)
  {
    r := ContainsAll(phase, 5, 10);
  }

  /** The set of values in a sequence has at most as many elements as the sequence, and fewer when one repeats. */
  lemma {:induction false} ElementsCard(s: seq<int>)
    ensures |set x | x in s| <= |s|
    ensures (exists i, j :: 0 <= i < j < |s| && s[i] == s[j]) ==> |set x | x in s| < |s|
  {
    if s != [] {
      var init := s[..|s| - 1];
      var last := s[|s| - 1];
      ElementsCard(init);
      assert (set x | x in s) == (set x | x in init) + {last} by {
        forall x | x in s ensures x in init || x == last {
          var k :| 0 <= k < |s| && s[k] == x;
          if k < |s| - 1 {
            assert init[k] == x;
          }
        }
      }
      if exists i, j :: 0 <= i < j < |s| && s[i] == s[j] {
        var i, j :| 0 <= i < j < |s| && s[i] == s[j];
        if j == |s| - 1 {
          assert init[i] == last;
        } else {
          assert init[i] == init[j];
        }
      }
    }
  }

  /**
   * A valid setting of five is a permutation of lo..lo+4: each value in
   * range and no value twice.
   */
  lemma ValidIsPermutation(phase: seq<int>, lo: int)
    requires |phase| == AMP_COUNT && ContainsRange(phase, lo, lo + 5)
    ensures forall i :: 0 <= i < AMP_COUNT ==> lo <= phase[i] < lo + 5
    ensures forall i, j :: 0 <= i < j < AMP_COUNT ==> phase[i] != phase[j]
  {
    var values := set x | x in phase;
    var range := {lo, lo + 1, lo + 2, lo + 3, lo + 4};
    assert range <= values;
    assert |range| == 5;
    ElementsCard(phase);
    assert |values - range| == |values| - |range| == 0;
    assert values - range == {};
    assert values == range;
    forall i | 0 <= i < AMP_COUNT ensures lo <= phase[i] < lo + 5 {
      assert phase[i] in values;
    }
  }

  // ---------------------------------------------------------------- chain

  /**
   * One amplifier of the chain: a fresh machine over the program with the
   * phase and then the incoming signal queued, run to its first output.
   */
  function Amplify(program: seq<int>, amp: nat, phase: int, signal: int, fuel: nat): Result<int, AmpFault> {
    Handed(amp, M.ComputeOutput(M.Input(M.Input(M.Init(program), phase), signal), fuel).signal)
  }

  /** The signal after the first `k` amplifiers of the chain; the first one gets 0. */
  function Chain(program: seq<int>, phase: seq<int>, k: nat, fuel: nat): Result<int, AmpFault>
    requires k <= |phase|
  {
    if k == 0 then Ok(0)
    else
      var signal :- Chain(program, phase, k - 1, fuel);
      Amplify(program, k - 1, phase[k - 1], signal, fuel)
  }

  /** The signal an amplifier hands on, or why it has none. */
  function Handed(amp: nat, signal: M.Signal): (r: Result<int, AmpFault>)
    ensures r.Ok? <==> signal.Output?
    ensures r.Ok? ==> r.value == signal.value
  {
    match signal
    case Output(v) => Ok(v)
    case Halt => Err(NoSignal(amp))
    case Crash(f) => Err(Crashed(amp, f))
    case OutOfFuel => Err(OutOfFuel(amp))
  }

  /** Once an amplifier of the chain fails, so does the whole chain, with the same fault. */
  lemma {:induction false} ChainStops(program: seq<int>, phase: seq<int>, k: nat, j: nat, fuel: nat)
    requires k <= j <= |phase| && Chain(program, phase, k, fuel).Err?
    ensures Chain(program, phase, j, fuel) == Chain(program, phase, k, fuel)
    decreases j - k
  {
    if k < j {
      ChainStops(program, phase, k, j - 1, fuel);
    }
  }

  /** The body of the loop of `thruster_signal`: one amplifier on a machine of its own. */
  method AmplifyOnce(program: seq<int>, amp: nat, phase: int, signal: int, fuel: nat) returns (r: Result<int, AmpFault>)
    ensures r == Amplify(program, amp, phase, signal, fuel)
  {
    var computer := new Intcode.IntCode.Init(program);
    computer.Input(phase);
    computer.Input(signal);
    var output := computer.ComputeOutput(fuel);
    r := Handed(amp, output);
  }

  /**
   * `thruster_signal`: for each amplifier in turn, a fresh machine over a
   * copy of the program, given its phase and the running signal, whose first
   * output becomes the signal.
   */
  method ThrusterSignal(program: seq<int>, phase: seq<int>, fuel: nat) returns (r: Result<int, AmpFault>)
    requires |phase| == AMP_COUNT
    ensures r == Chain(program, phase, AMP_COUNT, fuel)
  {
    var inputSignal := 0;
    for i := 0 to AMP_COUNT
      invariant Chain(program, phase, i, fuel) == Ok(inputSignal)
    {
      var next := AmplifyOnce(program, i, phase[i], inputSignal, fuel);
      if next.Err? {
        ChainStops(program, phase, i + 1, AMP_COUNT, fuel);
        return Err(next.error);
      }
      inputSignal := next.value;
    }
    return Ok(inputSignal);
  }

  // ---------------------------------------------------------------- ring

  /** The machines after every phase is queued and before any signal is. */
  function Primed(program: seq<int>, phase: seq<int>): (amps: seq<M.Machine>)
    requires |phase| == AMP_COUNT
    ensures |amps| == AMP_COUNT
    ensures forall i :: 0 <= i < AMP_COUNT ==> amps[i] == M.Input(M.Init(program), phase[i])
  {
    seq(AMP_COUNT, i requires 0 <= i < AMP_COUNT => M.Input(M.Init(program), phase[i]))
  }

  /** One turn of the ring: amplifier `index` gets the signal and runs to its next output or halt. */
  function Turn(amps: seq<M.Machine>, index: nat, input: int, fuel: nat): M.Suspension
    requires index < |amps|
  {
    M.ComputeOutput(M.Input(amps[index], input), fuel)
  }

  /**
   * The `while let Some(input) = output` loop, for at most `turns` turns:
   * the machines once an amplifier halts. Each turn changes only the
   * amplifier whose turn it is, and the turn passes to the next one modulo 5.
   */
  function Circulate(amps: seq<M.Machine>, index: nat, input: int, turns: nat, fuel: nat): (r: Result<seq<M.Machine>, AmpFault>)
    requires |amps| == AMP_COUNT && index < AMP_COUNT
    ensures r.Ok? ==> |r.value| == AMP_COUNT
    decreases turns
  {
    if turns == 0 then Err(OutOfTurns)
    else
      var s := Turn(amps, index, input, fuel);
      var next := amps[index := s.machine];
      match s.signal
      case Output(v) => Circulate(next, (index + 1) % AMP_COUNT, v, turns - 1, fuel)
      case Halt => Ok(next)
      case Crash(f) => Err(Crashed(index, f))
      case OutOfFuel => Err(OutOfFuel(index))
  }

  /** `feedback` on a parsed program: the last output of amplifier 4 once the ring stops. */
  function Feedback(program: seq<int>, phase: seq<int>, turns: nat, fuel: nat): Result<int, AmpFault>
    requires |phase| == AMP_COUNT
  {
    var amps :- Circulate(Primed(program, phase), 0, 0, turns, fuel);
    match M.LastOutput(amps[AMP_COUNT - 1])
    case Ok(v) => Ok(v)
    case Err(_) => Err(NoLastOutput)
  }

  /** Every amplifier's input queue starts with its own phase. */
  ghost predicate PhasesFirst(amps: seq<M.Machine>, phase: seq<int>)
    requires |amps| == |phase| == AMP_COUNT
  {
    forall i :: 0 <= i < AMP_COUNT ==> amps[i].input != [] && amps[i].input[0] == phase[i]
  }

  /**
   * The phases are queued before any signal: primed machines have exactly
   * their phase queued, and no turn of the ring disturbs the head of any
   * queue.
   */
  lemma {:induction false} CirculateKeepsPhases(amps: seq<M.Machine>, phase: seq<int>, index: nat, input: int, turns: nat, fuel: nat)
    requires |amps| == |phase| == AMP_COUNT && index < AMP_COUNT
    requires PhasesFirst(amps, phase)
    ensures Circulate(amps, index, input, turns, fuel).Ok? ==> PhasesFirst(Circulate(amps, index, input, turns, fuel).value, phase)
    decreases turns
  {
    if turns > 0 {
      var fed := M.Input(amps[index], input);
      P.ComputeOutputLog(fed, fuel);
      var s := Turn(amps, index, input, fuel);
      var next := amps[index := s.machine];
      assert s.machine.input == amps[index].input + [input];
      assert PhasesFirst(next, phase);
      if s.signal.Output? {
        CirculateKeepsPhases(next, phase, (index + 1) % AMP_COUNT, s.signal.value, turns - 1, fuel);
      }
    }
  }

  /** A turn that hands on a signal passes the ring to the next amplifier. */
  lemma CirculateOutput(amps: seq<M.Machine>, index: nat, input: int, turns: nat, fuel: nat)
    requires |amps| == AMP_COUNT && index < AMP_COUNT && turns > 0
    requires Turn(amps, index, input, fuel).signal.Output?
    ensures var s := Turn(amps, index, input, fuel);
      Circulate(amps, index, input, turns, fuel) == Circulate(amps[index := s.machine], (index + 1) % AMP_COUNT, s.signal.value, turns - 1, fuel)
  {
  }

  /** A turn that halts stops the ring. */
  lemma CirculateHalt(amps: seq<M.Machine>, index: nat, input: int, turns: nat, fuel: nat)
    requires |amps| == AMP_COUNT && index < AMP_COUNT && turns > 0
    requires Turn(amps, index, input, fuel).signal.Halt?
    ensures Circulate(amps, index, input, turns, fuel) == Ok(amps[index := Turn(amps, index, input, fuel).machine])
  {
  }

  /** Primed machines hold exactly their phase. */
  lemma PrimedPhases(program: seq<int>, phase: seq<int>)
    requires |phase| == AMP_COUNT
    ensures PhasesFirst(Primed(program, phase), phase)
    ensures forall i :: 0 <= i < AMP_COUNT ==> Primed(program, phase)[i].input == [phase[i]]
  {
  }

  /** Distinct machines over distinct memories. */
  predicate Separate(amps: seq<Intcode.IntCode>) {
    forall i, j :: 0 <= i < |amps| && 0 <= j < |amps| && i != j ==> amps[i] != amps[j] && amps[i].ops != amps[j].ops
  }

  /** The states of the machines, in order. */
  ghost function States(amps: seq<Intcode.IntCode>): (r: seq<M.Machine>)
    reads set i | 0 <= i < |amps| :: amps[i]
    reads set i | 0 <= i < |amps| :: amps[i].ops
    ensures |r| == |amps|
    ensures forall i :: 0 <= i < |amps| ==> r[i] == amps[i].State()
  {
    seq(|amps|, i requires 0 <= i < |amps| reads (set j | 0 <= j < |amps| :: amps[j]), (set j | 0 <= j < |amps| :: amps[j].ops) => amps[i].State())
  }

  /** `(0..AMP_COUNT).map(|_| IntCode::new(program))`: five fresh machines over the parsed program. */
  method MakeAmps(program: string) returns (r: Option<seq<Intcode.IntCode>>)
    ensures r.None? <==> M.InitOps(program).Err?
    ensures r.Some? ==> |r.value| == AMP_COUNT && Separate(r.value)
    ensures r.Some? ==> forall k :: 0 <= k < AMP_COUNT ==> fresh(r.value[k]) && fresh(r.value[k].ops)
    ensures r.Some? ==> forall k :: 0 <= k < AMP_COUNT ==> r.value[k].State() == M.Init(M.InitOps(program).value)
  {
    var amps: seq<Intcode.IntCode> := [];
    for i := 0 to AMP_COUNT
      invariant |amps| == i && Separate(amps)
      invariant forall k :: 0 <= k < i ==> fresh(amps[k]) && fresh(amps[k].ops)
      invariant i > 0 ==> M.InitOps(program).Ok?
      invariant forall k :: 0 <= k < i ==> amps[k].State() == M.Init(M.InitOps(program).value)
    {
      var made := Intcode.New(program);
      if made.Err? {
        return None;
      }
      amps := amps + [made.value];
    }
    if amps == [] {
      assert false;
    }
    return Some(amps);
  }

  /** The loop of `feedback` that queues every amplifier's phase. */
  method Prime(amps: seq<Intcode.IntCode>, phase: seq<int>, ghost program: seq<int>)
    requires |amps| == |phase| == AMP_COUNT && Separate(amps)
    requires forall k :: 0 <= k < AMP_COUNT ==> amps[k].State() == M.Init(program)
    modifies set i | 0 <= i < |amps| :: amps[i]
    ensures States(amps) == Primed(program, phase)
  {
    for i := 0 to AMP_COUNT
      invariant forall k :: 0 <= k < AMP_COUNT ==> amps[k].State() == if k < i then M.Input(M.Init(program), phase[k]) else M.Init(program)
    {
      amps[i].Input(phase[i]);
    }
  }

  /** The body of the ring loop: amplifier `index` is given the signal and runs. */
  method TakeTurn(amps: seq<Intcode.IntCode>, index: nat, input: int, fuel: nat) returns (signal: M.Signal)
    requires |amps| == AMP_COUNT && index < AMP_COUNT && Separate(amps)
    modifies amps[index], amps[index].ops
    ensures signal == Turn(old(States(amps)), index, input, fuel).signal
    ensures States(amps) == old(States(amps))[index := Turn(old(States(amps)), index, input, fuel).machine]
  {
    ghost var before := States(amps);
    var amp := amps[index];
    amp.Input(input);
    signal := amp.ComputeOutput(fuel);
    assert forall k :: 0 <= k < AMP_COUNT && k != index ==> amps[k].State() == before[k];
  }

  /** The machines agree with the outcome of a ring: the outcome's machines when it ends, its fault when it fails. */
  ghost predicate Settles(amps: seq<Intcode.IntCode>, r: Result<(), AmpFault>, outcome: Result<seq<M.Machine>, AmpFault>)
    reads set i | 0 <= i < |amps| :: amps[i]
    reads set i | 0 <= i < |amps| :: amps[i].ops
  {
    (outcome.Ok? ==> r.Ok? && States(amps) == outcome.value) &&
    (outcome.Err? ==> r == Err(outcome.error))
  }

  /**
   * One pass of the ring loop: the turn of amplifier `index`. Either the
   * ring goes on with the next amplifier and the signal in `next`, or it
   * stops here with the outcome in `done`.
   */
  method RingTurn(amps: seq<Intcode.IntCode>, ghost machines: seq<M.Machine>, ghost outcome: Result<seq<M.Machine>, AmpFault>,
                  index: nat, input: int, turns: nat, fuel: nat)
      returns (done: Option<Result<(), AmpFault>>, next: int, nextIndex: nat, ghost after: seq<M.Machine>)
    requires |amps| == AMP_COUNT && index < AMP_COUNT && turns > 0 && Separate(amps)
    requires States(amps) == machines
    requires outcome == Circulate(machines, index, input, turns, fuel)
    modifies amps[index], amps[index].ops
    ensures States(amps) == after && |after| == AMP_COUNT && nextIndex < AMP_COUNT
    ensures done.None? ==> outcome == Circulate(after, nextIndex, next, turns - 1, fuel)
    ensures done.Some? && outcome.Ok? ==> done.value.Ok? && after == outcome.value
    ensures done.Some? && outcome.Err? ==> done.value == Err(outcome.error)
  {
    var signal := TakeTurn(amps, index, input, fuel);
    after := machines[index := Turn(machines, index, input, fuel).machine];
    next, nextIndex := input, (index + 1) % AMP_COUNT;
    match signal
    case Output(v) =>
      CirculateOutput(machines, index, input, turns, fuel);
      done, next := None, v;
    case Halt =>
      CirculateHalt(machines, index, input, turns, fuel);
      done := Some(Ok(()));
    case Crash(f) =>
      done := Some(Err(Crashed(index, f)));
    case OutOfFuel =>
      done := Some(Err(OutOfFuel(index)));
  }

  /**
   * The `while let Some(input) = output` loop of `feedback`, from amplifier
   * 0 with signal 0: the machines are left as the ring leaves them.
   */
  method Ring(amps: seq<Intcode.IntCode>, turns: nat, fuel: nat) returns (r: Result<(), AmpFault>)
    requires |amps| == AMP_COUNT && Separate(amps)
    modifies set i | 0 <= i < |amps| :: amps[i]
    modifies set i | 0 <= i < |amps| :: amps[i].ops
    ensures Settles(amps, r, Circulate(old(States(amps)), 0, 0, turns, fuel))
  {
    ghost var machines := States(amps);
    ghost var outcome := Circulate(machines, 0, 0, turns, fuel);
    var output := 0;
    var ampIndex: nat := 0;
    var left: nat := turns;
    while left > 0
      invariant ampIndex < AMP_COUNT && |machines| == AMP_COUNT
      invariant States(amps) == machines
      invariant outcome == Circulate(machines, ampIndex, output, left, fuel)
    {
      var done;
      done, output, ampIndex, machines := RingTurn(amps, machines, outcome, ampIndex, output, left, fuel);
      if done.Some? {
        return done.value;
      }
      left := left - 1;
    }
    return Err(OutOfTurns);
  }

  /**
   * `feedback`: five machines over the program, every phase queued, then
   * turns round the ring from amplifier 0 with signal 0 until one halts;
   * the result is amplifier 4's last output.
   */
  method FeedbackSignal(program: string, phase: seq<int>, turns: nat, fuel: nat) returns (r: Result<int, AmpFault>)
    requires |phase| == AMP_COUNT
    ensures M.InitOps(program).Err? ==> r == Err(BadProgram)
    ensures M.InitOps(program).Ok? ==> r == Feedback(M.InitOps(program).value, phase, turns, fuel)
  {
    var made := MakeAmps(program);
    if made.None? {
      return Err(BadProgram);
    }
    var amps := made.value;
    ghost var ops := M.InitOps(program).value;
    Prime(amps, phase, ops);
    var ring := Ring(amps, turns, fuel);
    if ring.Err? {
      return Err(ring.error);
    }
    var last := amps[AMP_COUNT - 1].LastOutput();
    if last.Err? {
      return Err(NoLastOutput);
    }
    return Ok(last.value);
  }

  // ---------------------------------------------------------------- search

  /** The number of settings the five nested loops go through: five values for each of five amplifiers. */
  const SETTINGS: nat := 3125

  /** The last `k` loop variables for iteration `n` of the nested loops: `n` in base 5, most significant digit first, offset by `lo`. */
  function Digits(lo: int, n: nat, k: nat): (r: seq<int>)
    ensures |r| == k
    ensures forall i :: 0 <= i < k ==> lo <= r[i] < lo + 5
  {
    if k == 0 then [] else Digits(lo, n / 5, k - 1) + [lo + n % 5]
  }

  /** `[a, b, c, d, e]` on iteration `n` of the nested loops over lo..lo+5, `e` the innermost. */
  function Setting(lo: int, n: nat): (r: seq<int>)
    ensures |r| == AMP_COUNT
  {
    Digits(lo, n, AMP_COUNT)
  }

  /** The iteration on which the nested loops reach a setting: its values as base-5 digits. */
  function Index(lo: int, phase: seq<int>): int {
    if phase == [] then 0 else Index(lo, phase[..|phase| - 1]) * 5 + (phase[|phase| - 1] - lo)
  }

  function Pow5(k: nat): (r: nat)
    ensures r > 0
  {
    if k == 0 then 1 else 5 * Pow5(k - 1)
  }

  /** Every sequence of values in lo..lo+5 is reached, on the iteration its digits spell. */
  lemma {:induction false} DigitsIndex(lo: int, phase: seq<int>)
    requires forall i :: 0 <= i < |phase| ==> lo <= phase[i] < lo + 5
    ensures 0 <= Index(lo, phase) < Pow5(|phase|)
    ensures Digits(lo, Index(lo, phase), |phase|) == phase
  {
    if phase != [] {
      var init := phase[..|phase| - 1];
      var d := phase[|phase| - 1] - lo;
      DigitsIndex(lo, init);
      var n := Index(lo, init) * 5 + d;
      assert n / 5 == Index(lo, init) && n % 5 == d;
      assert phase == init + [lo + d];
    }
  }

  /** The nested loops go through every setting of five values in lo..lo+5. */
  lemma SettingCovers(lo: int, phase: seq<int>) returns (n: nat)
    requires |phase| == AMP_COUNT && forall i :: 0 <= i < AMP_COUNT ==> lo <= phase[i] < lo + 5
    ensures n < SETTINGS && Setting(lo, n) == phase
  {
    DigitsIndex(lo, phase);
    n := Index(lo, phase);
  }

  /** The best signal found so far and the setting that gave it. */
  datatype Best = Best(signal: int, phase: seq<int>)

  /**
   * The search of `find_max_phase_setting` and
   * `find_max_feedback_phase_setting` over its first `n` iterations: starting
   * from signal 0 and setting [0, 0, 0, 0, 0], each valid setting is scored
   * and replaces the best only when its signal is strictly larger. A failing
   * score stops the search.
   */
  ghost function Search(lo: int, score: seq<int> --> Result<int, AmpFault>, n: nat): Result<Best, AmpFault>
    requires forall phase :: |phase| == AMP_COUNT ==> score.requires(phase)
  {
    if n == 0 then Ok(Best(0, [0, 0, 0, 0, 0]))
    else
      var best :- Search(lo, score, n - 1);
      Consider(lo, score, n - 1, best)
  }

  /** Iteration `n` of the search: its setting, when valid, scored and kept if strictly better than `best`. */
  ghost function Consider(lo: int, score: seq<int> --> Result<int, AmpFault>, n: nat, best: Best): Result<Best, AmpFault>
    requires forall phase :: |phase| == AMP_COUNT ==> score.requires(phase)
  {
    var phase := Setting(lo, n);
    if !ContainsRange(phase, lo, lo + 5) then Ok(best)
    else
      var signal :- score(phase);
      if best.signal < signal then Ok(Best(signal, phase)) else Ok(best)
  }

  /** One more iteration, after a search that has not failed, is that iteration considered. */
  lemma SearchNext(lo: int, score: seq<int> --> Result<int, AmpFault>, n: nat, best: Best)
    requires forall phase :: |phase| == AMP_COUNT ==> score.requires(phase)
    requires Search(lo, score, n) == Ok(best)
    ensures Search(lo, score, n + 1) == Consider(lo, score, n, best)
  {
  }

  /** Once a score fails, the search keeps that fault. */
  lemma {:induction false} SearchStops(lo: int, score: seq<int> --> Result<int, AmpFault>, k: nat, n: nat)
    requires forall phase :: |phase| == AMP_COUNT ==> score.requires(phase)
    requires k <= n && Search(lo, score, k).Err?
    ensures Search(lo, score, n) == Search(lo, score, k)
    decreases n - k
  {
    if k < n {
      SearchStops(lo, score, k, n - 1);
    }
  }

  /**
   * A search that finds no fault has scored every valid setting it went
   * through, and holds the largest signal: either none beat 0 and the
   * setting is still all zeros, or the setting is the first valid one
   * reaching that signal.
   */
  lemma {:induction false} SearchFindsMax(lo: int, score: seq<int> --> Result<int, AmpFault>, n: nat) returns (k: nat)
    requires forall phase :: |phase| == AMP_COUNT ==> score.requires(phase)
    requires Search(lo, score, n).Ok?
    ensures forall m :: 0 <= m < n && ContainsRange(Setting(lo, m), lo, lo + 5) ==>
      score(Setting(lo, m)).Ok? && score(Setting(lo, m)).value <= Search(lo, score, n).value.signal
    ensures var best := Search(lo, score, n).value;
      (best == Best(0, [0, 0, 0, 0, 0])) ||
      (0 < best.signal && k < n && best.phase == Setting(lo, k) && ContainsRange(best.phase, lo, lo + 5) &&
       score(best.phase) == Ok(best.signal) &&
       forall m :: 0 <= m < k && ContainsRange(Setting(lo, m), lo, lo + 5) ==> score(Setting(lo, m)).value < best.signal)
  {
    if n == 0 {
      k := 0;
    } else {
      k := SearchFindsMax(lo, score, n - 1);
      var best := Search(lo, score, n - 1).value;
      var phase := Setting(lo, n - 1);
      if ContainsRange(phase, lo, lo + 5) && best.signal < score(phase).value {
        k := n - 1;
      }
    }
  }

  /** A failing search fails with the fault of a valid setting it scored. */
  lemma {:induction false} SearchFault(lo: int, score: seq<int> --> Result<int, AmpFault>, n: nat) returns (m: nat)
    requires forall phase :: |phase| == AMP_COUNT ==> score.requires(phase)
    requires Search(lo, score, n).Err?
    ensures m < n && ContainsRange(Setting(lo, m), lo, lo + 5)
    ensures score(Setting(lo, m)) == Err(Search(lo, score, n).error)
  {
    if Search(lo, score, n - 1).Err? {
      m := SearchFault(lo, score, n - 1);
    } else {
      m := n - 1;
    }
  }

  /**
   * The whole search: no valid setting scores more than the signal found,
   * and a positive signal is the score of the valid setting returned.
   */
  lemma BestOfAll(lo: int, score: seq<int> --> Result<int, AmpFault>, phase: seq<int>)
    requires forall phase :: |phase| == AMP_COUNT ==> score.requires(phase)
    requires Search(lo, score, SETTINGS).Ok?
    requires |phase| == AMP_COUNT && ContainsRange(phase, lo, lo + 5)
    ensures score(phase).Ok? && score(phase).value <= Search(lo, score, SETTINGS).value.signal
  {
    var _ := SearchFindsMax(lo, score, SETTINGS);
    ValidIsPermutation(phase, lo);
    var n := SettingCovers(lo, phase);
  }

  /** The score of the chain: its signal for a setting. */
  function ChainScore(program: seq<int>, fuel: nat): seq<int> --> Result<int, AmpFault> {
    phase requires |phase| == AMP_COUNT => Chain(program, phase, AMP_COUNT, fuel)
  }

  /** The score of the ring: its signal for a setting, on a program that may not parse. */
  function FeedbackScore(program: string, turns: nat, fuel: nat): seq<int> --> Result<int, AmpFault> {
    phase requires |phase| == AMP_COUNT =>
      match M.InitOps(program)
      case Ok(ops) => Feedback(ops, phase, turns, fuel)
      case Err(_) => Err(BadProgram)
  }

  /** One iteration of the nested loops of `find_max_phase_setting`: setting `n` checked, scored by the chain and compared with the best. */
  method ChainIteration(program: seq<int>, fuel: nat, n: nat, best: Best) returns (r: Result<Best, AmpFault>)
    requires Search(0, ChainScore(program, fuel), n) == Ok(best)
    ensures r == Search(0, ChainScore(program, fuel), n + 1)
  {
    var testSettings := Setting(0, n);
    SearchNext(0, ChainScore(program, fuel), n, best);
    var valid := ValidPhaseSetting(testSettings);
    if !valid {
      return Ok(best);
    }
    var testSignal :- ThrusterSignal(program, testSettings, fuel);
    if best.signal < testSignal {
      return Ok(Best(testSignal, testSettings));
    }
    return Ok(best);
  }

  /** `find_max_phase_setting`: the search over settings of 0..4, each scored by the chain. */
  method FindMaxPhaseSetting(program: seq<int>, fuel: nat) returns (r: Result<Best, AmpFault>)
    ensures r == Search(0, ChainScore(program, fuel), SETTINGS)
  {
    var best := Best(0, [0, 0, 0, 0, 0]);
    for n := 0 to SETTINGS
      invariant Search(0, ChainScore(program, fuel), n) == Ok(best)
    {
      var next := ChainIteration(program, fuel, n, best);
      if next.Err? {
        SearchStops(0, ChainScore(program, fuel), n + 1, SETTINGS);
        return next;
      }
      best := next.value;
    }
    return Ok(best);
  }

  /** One iteration of the nested loops of `find_max_feedback_phase_setting`: setting `n` checked, scored by the ring and compared with the best. */
  method FeedbackIteration(program: string, turns: nat, fuel: nat, n: nat, best: Best) returns (r: Result<Best, AmpFault>)
    requires Search(5, FeedbackScore(program, turns, fuel), n) == Ok(best)
    ensures r == Search(5, FeedbackScore(program, turns, fuel), n + 1)
  {
    var testSettings := Setting(5, n);
    SearchNext(5, FeedbackScore(program, turns, fuel), n, best);
    var valid := ValidFeedbackPhaseSetting(testSettings);
    if !valid {
      return Ok(best);
    }
    var signal := FeedbackSignal(program, testSettings, turns, fuel);
    FeedbackScoreAt(program, turns, fuel, testSettings);
    var testSignal :- signal;
    if best.signal < testSignal {
      return Ok(Best(testSignal, testSettings));
    }
    return Ok(best);
  }

  /** The ring's score of one setting. */
  lemma FeedbackScoreAt(program: string, turns: nat, fuel: nat, phase: seq<int>)
    requires |phase| == AMP_COUNT
    ensures M.InitOps(program).Err? ==> FeedbackScore(program, turns, fuel)(phase) == Err(BadProgram)
    ensures M.InitOps(program).Ok? ==> FeedbackScore(program, turns, fuel)(phase) == Feedback(M.InitOps(program).value, phase, turns, fuel)
  {
  }

  /** `find_max_feedback_phase_setting`: the search over settings of 5..9, each scored by the ring. */
  method FindMaxFeedbackPhaseSetting(program: string, turns: nat, fuel: nat) returns (r: Result<Best, AmpFault>)
    ensures r == Search(5, FeedbackScore(program, turns, fuel), SETTINGS)
  {
    var best := Best(0, [0, 0, 0, 0, 0]);
    for n := 0 to SETTINGS
      invariant Search(5, FeedbackScore(program, turns, fuel), n) == Ok(best)
    {
      var next := FeedbackIteration(program, turns, fuel, n, best);
      if next.Err? {
        SearchStops(5, FeedbackScore(program, turns, fuel), n + 1, SETTINGS);
        return next;
      }
      best := next.value;
    }
    return Ok(best);
  }
}
