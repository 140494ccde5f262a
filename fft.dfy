/**
 * The digit-signal transform of 16/src/lib.rs. A phase replaces the digit
 * at (one-based) `row` by the last digit of a patterned sum of the digits
 * from `row` on. In the second half of the signal the pattern is all ones,
 * so a phase there is a running suffix sum; `phase_after_half` computes
 * only that part.
 */
module Fft {
  import opened Text
  import opened RustInt
  import opened Seqs

  /** The pattern `process_signal` uses. */
  const BASE_PATTERN: seq<int> := [0, 1, 0, -1]

  /** The number of phases `process_after_half` applies. */
  const PHASES_AFTER_HALF: nat := 100

  /** Every element is a decimal digit. */
  predicate IsDigits(signal: seq<int>) {
    forall i :: 0 <= i < |signal| ==> 0 <= signal[i] < 10
  }

  /** `parse_input_vec`: each character's digit value; `to_digit(10).unwrap()` panics on any other character. */
  function ParseInputVec(input: string): (signal: seq<int>)
    requires AllDigits(input)
    ensures |signal| == |input| && IsDigits(signal)
  {
    seq(|input|, i requires 0 <= i < |input| => DigitValue(input[i]) as int)
  }

  /** The text of a signal: one character per digit. */
  function ShowSignal(signal: seq<int>): (s: string)
    requires IsDigits(signal)
    ensures |s| == |signal| && AllDigits(s)
  {
    seq(|signal|, i requires 0 <= i < |signal| => ('0' as int + signal[i]) as char)
  }

  lemma ParseShow(signal: seq<int>)
    requires IsDigits(signal)
    ensures ParseInputVec(ShowSignal(signal)) == signal
  {
    var r := ParseInputVec(ShowSignal(signal));
    assert forall i :: 0 <= i < |signal| ==> r[i] == signal[i];
  }

  lemma ShowParse(input: string)
    requires AllDigits(input)
    ensures ShowSignal(ParseInputVec(input)) == input
  {
    var r := ShowSignal(ParseInputVec(input));
    assert forall i :: 0 <= i < |input| ==> r[i] == input[i];
  }

  /** The term of column `col` in the sum for `row`: the pattern repeated `row` times each, shifted by one. */
  function Term(pattern: seq<int>, signal: seq<int>, row: nat, col: nat): int
    requires |pattern| > 0 && 1 <= row && 1 <= col <= |signal|
  {
    pattern[(col / row) % |pattern|] * signal[col - 1]
  }

  /** The sum of the terms of columns `row..=upto`. */
  function RowSum(pattern: seq<int>, signal: seq<int>, row: nat, upto: nat): int
    requires |pattern| > 0 && 1 <= row && upto <= |signal|
    decreases upto
  {
    if upto < row then 0 else RowSum(pattern, signal, row, upto - 1) + Term(pattern, signal, row, upto)
  }

  /** Output digit `row` of a phase: the last digit of the magnitude of the row's sum. */
  function PhaseDigit(pattern: seq<int>, signal: seq<int>, row: nat): (d: int)
    requires |pattern| > 0 && 1 <= row
    ensures 0 <= d < 10
  {
    Abs(RowSum(pattern, signal, row, |signal|)) % 10
  }

  /** One phase: digit `i` of the result is `PhaseDigit` of row `i + 1`. */
  function Phase(pattern: seq<int>, signal: seq<int>): (r: seq<int>)
    requires |pattern| > 0
    ensures |r| == |signal| && IsDigits(r)
  {
    seq(|signal|, i requires 0 <= i < |signal| => PhaseDigit(pattern, signal, i + 1))
  }

  /** `k` phases applied in turn. */
  function Phases(pattern: seq<int>, signal: seq<int>, k: nat): (r: seq<int>)
    requires |pattern| > 0
    ensures |r| == |signal|
    ensures k > 0 ==> IsDigits(r)
  {
    if k == 0 then signal else Phase(pattern, Phases(pattern, signal, k - 1))
  }

  /** `phase_in_place`: for each row, accumulate the row's sum column by column. */
  method PhaseInPlace(pattern: seq<int>, signal: seq<int>) returns (values: seq<int>)
    requires |pattern| > 0
    ensures values == Phase(pattern, signal)
  {
    var n := |signal|;
    values := [];
    for row := 1 to n + 1
      invariant |values| == row - 1
      invariant forall i :: 0 <= i < row - 1 ==> values[i] == PhaseDigit(pattern, signal, i + 1)
    {
      var sum := 0;
      for col := row to n + 1
        invariant sum == RowSum(pattern, signal, row, col - 1)
      {
        var patternIdx := (col / row) % |pattern|;
        var signalIdx := col - 1;
        sum := sum + pattern[patternIdx] * signal[signalIdx];
      }
      var truncated := Abs(sum) % 10;
      values := values + [truncated];
    }
  }

  /** `process_signal`: parse the input, then apply `phases` phases of the base pattern. */
  method ProcessSignal(input: string, phases: nat) returns (signal: seq<int>)
    requires AllDigits(input)
    ensures signal == Phases(BASE_PATTERN, ParseInputVec(input), phases)
  {
    var pattern := BASE_PATTERN;
    signal := ParseInputVec(input);
    for k := 0 to phases
      invariant signal == Phases(pattern, ParseInputVec(input), k)
    {
      signal := PhaseInPlace(pattern, signal);
    }
  }

  /** `val_at_pos`: the sum of `signal[pos + i] * 10^(len - i - 1)` over `i` in `0..len`. */
  function ValAtPos(signal: seq<int>, pos: nat, len: nat): int
    requires pos + len <= |signal|
  {
    PlaceSum(signal, pos, len, len)
  }

  /** The first `k` terms of the sum in `val_at_pos`. */
  function PlaceSum(signal: seq<int>, pos: nat, len: nat, k: nat): int
    requires pos + len <= |signal| && k <= len
  {
    if k == 0 then 0 else PlaceSum(signal, pos, len, k - 1) + signal[pos + k - 1] * Pow10(len - k)
  }

  lemma {:induction false} PlaceSumDecimal(signal: seq<int>, pos: nat, len: nat, k: nat)
    requires pos + len <= |signal| && k <= len
    ensures PlaceSum(signal, pos, len, k) == Decimal(signal[pos..pos + k]) * Pow10(len - k)
  {
    if k > 0 {
      PlaceSumDecimal(signal, pos, len, k - 1);
      var d := signal[pos..pos + k];
      DecimalPrefix(d, k);
      assert d[..k] == d && d[..k - 1] == signal[pos..pos + k - 1];
      var p := Pow10(len - k);
      assert Pow10(len - (k - 1)) == 10 * p;
      calc {
        PlaceSum(signal, pos, len, k);
        Decimal(d[..k - 1]) * (10 * p) + d[k - 1] * p;
        (10 * Decimal(d[..k - 1]) + d[k - 1]) * p;
        Decimal(d) * p;
      }
    }
  }

  /** `val_at_pos` reads the `len` digits at `pos` as a decimal number, most significant first. */
  lemma ValAtPosIsDecimal(signal: seq<int>, pos: nat, len: nat)
    requires pos + len <= |signal|
    ensures ValAtPos(signal, pos, len) == Decimal(signal[pos..pos + len])
  {
    PlaceSumDecimal(signal, pos, len, len);
  }

  /** The running total of `phase_after_half` at index `i`, accumulated from the end with Rust's `%`. */
  function SuffixTotal(signal: seq<int>, i: nat): int
    requires i <= |signal|
    decreases |signal| - i
  {
    if i == |signal| then 0 else TruncRem(SuffixTotal(signal, i + 1) + signal[i], 10)
  }

  /** What `phase_after_half` returns: the running total at each index. */
  function AfterHalf(signal: seq<int>): (r: seq<int>)
    ensures |r| == |signal|
  {
    seq(|signal|, i requires 0 <= i < |signal| => SuffixTotal(signal, i))
  }

  /** `k` applications of `phase_after_half`. */
  function AfterHalfs(signal: seq<int>, k: nat): (r: seq<int>)
    ensures |r| == |signal|
  {
    if k == 0 then signal else AfterHalf(AfterHalfs(signal, k - 1))
  }

  /** `phase_after_half`: a running total over the reversed signal, pushed, then reversed back. */
  method PhaseAfterHalf(signal: seq<int>) returns (processed: seq<int>)
    ensures processed == AfterHalf(signal)
  {
    var n := |signal|;
    processed := [];
    var runningTotal := 0;
    for k := 0 to n
      invariant |processed| == k
      invariant runningTotal == SuffixTotal(signal, n - k)
      invariant forall j :: 0 <= j < k ==> processed[j] == SuffixTotal(signal, n - 1 - j)
    {
      var val := signal[n - 1 - k];
      runningTotal := TruncRem(runningTotal + val, 10);
      processed := processed + [runningTotal];
    }
    processed := Reverse(processed);
  }

  /**
   * `process_after_half`: 100 applications of `phase_after_half` to the
   * signal from `offset` on. When `offset` lies in the second half of a
   * signal of digits, that is the tail of 100 full phases.
   */
  method ProcessAfterHalf(signal: seq<int>, offset: nat) returns (ret: seq<int>)
    requires offset <= |signal|
    ensures ret == AfterHalfs(signal[offset..], PHASES_AFTER_HALF)
    ensures |ret| == |signal| - offset
    ensures IsDigits(signal) && |signal| < 2 * (offset + 1) ==>
      ret == Phases(BASE_PATTERN, signal, PHASES_AFTER_HALF)[offset..]
  {
    ret := PhaseAfterHalf(signal[offset..]);
    for k := 1 to PHASES_AFTER_HALF
      invariant ret == AfterHalfs(signal[offset..], k)
    {
      ret := PhaseAfterHalf(ret);
    }
    if IsDigits(signal) && |signal| < 2 * (offset + 1) {
      TailOfPhases(signal, offset, PHASES_AFTER_HALF);
    }
  }

  /** With non-negative elements, the running total is the last digit of the suffix sum. */
  lemma {:induction false} SuffixTotalIsSum(signal: seq<int>, i: nat)
    requires i <= |signal| && forall j :: 0 <= j < |signal| ==> signal[j] >= 0
    ensures SuffixTotal(signal, i) == Sum(signal[i..]) % 10
    decreases |signal| - i
  {
    if i < |signal| {
      SuffixTotalIsSum(signal, i + 1);
      assert signal[i..][1..] == signal[i + 1..];
      var rest := Sum(signal[i + 1..]);
      SumNonNegative(signal[i + 1..]);
      ModAdd(rest, signal[i]);
    }
  }

  lemma ModAdd(a: int, b: int)
    requires a >= 0 && b >= 0
    ensures (a % 10 + b) % 10 == (a + b) % 10
  {
    var q := a / 10;
    assert a == 10 * q + a % 10;
    assert a + b == 10 * q + (a % 10 + b);
  }

  lemma QuotientOne(a: int, b: int)
    requires 0 < b <= a < 2 * b
    ensures a / b == 1
  {
    assert a == b * (a / b) + a % b;
  }

  /** In the second half the pattern index `col / row` is 1, so the row's sum is the plain sum of the digits. */
  lemma {:induction false} RowSumInSecondHalf(signal: seq<int>, row: nat, upto: nat)
    requires 1 <= row && row - 1 <= upto <= |signal| < 2 * row
    ensures RowSum(BASE_PATTERN, signal, row, upto) == Sum(signal[row - 1..upto])
    decreases upto
  {
    if upto >= row {
      RowSumInSecondHalf(signal, row, upto - 1);
      QuotientOne(upto, row);
      assert Term(BASE_PATTERN, signal, row, upto) == signal[upto - 1];
      assert signal[row - 1..upto] == signal[row - 1..upto - 1] + [signal[upto - 1]];
      SumSnoc(signal[row - 1..upto - 1], signal[upto - 1]);
    } else {
      assert signal[row - 1..upto] == [];
    }
  }

  /**
   * From `offset` on, in the second half of a signal of digits, a full
   * phase gives what `phase_after_half` gives on the tail alone.
   */
  lemma TailOfPhase(signal: seq<int>, offset: nat)
    requires IsDigits(signal) && offset <= |signal| < 2 * (offset + 1)
    ensures Phase(BASE_PATTERN, signal)[offset..] == AfterHalf(signal[offset..])
  {
    var full := Phase(BASE_PATTERN, signal)[offset..];
    var tail := signal[offset..];
    forall i | 0 <= i < |tail| ensures full[i] == AfterHalf(tail)[i] {
      var row := offset + i + 1;
      RowSumInSecondHalf(signal, row, |signal|);
      assert signal[row - 1..|signal|] == signal[row - 1..] == tail[i..];
      SumNonNegative(signal[row - 1..]);
      assert full[i] == Sum(signal[row - 1..]) % 10;
      assert forall j :: 0 <= j < |tail| ==> tail[j] >= 0;
      SuffixTotalIsSum(tail, i);
    }
  }

  /** The same for `k` phases: the digits stay digits, so every phase is in the second-half case. */
  lemma {:induction false} TailOfPhases(signal: seq<int>, offset: nat, k: nat)
    requires IsDigits(signal) && offset <= |signal| < 2 * (offset + 1)
    ensures Phases(BASE_PATTERN, signal, k)[offset..] == AfterHalfs(signal[offset..], k)
  {
    if k > 0 {
      TailOfPhases(signal, offset, k - 1);
      TailOfPhase(Phases(BASE_PATTERN, signal, k - 1), offset);
    }
  }

  /** The seven leading digits of the second example's input read as 303673. */
  lemma OffsetExample(input: string, signal: seq<int>)
    requires input == "03036732577212944063491565474664" && signal == ParseInputVec(input)
    ensures ValAtPos(signal, 0, 7) == 303673
  {
    assert input[..7] == "0303673";
    LeadingDigits(input, signal);
  }

  /** A signal whose text starts with "0303673" has 303673 as its seven-digit offset. */
  lemma LeadingDigits(input: string, signal: seq<int>)
    requires AllDigits(input) && |input| >= 7 && input[..7] == "0303673" && signal == ParseInputVec(input)
    ensures ValAtPos(signal, 0, 7) == 303673
  {
    ValAtPosIsDecimal(signal, 0, 7);
    var d := signal[0..7];
    assert d == [0, 3, 0, 3, 6, 7, 3] by {
      forall k | 0 <= k < 7 ensures d[k] == DigitValue(input[k]) as int {
      }
    }
    DecimalPrefix(d, 1);
    DecimalPrefix(d, 2);
    DecimalPrefix(d, 3);
    DecimalPrefix(d, 4);
    DecimalPrefix(d, 5);
    DecimalPrefix(d, 6);
    DecimalPrefix(d, 7);
    assert d[..7] == d;
  }
}
