/**
 * The password rules of 4/src/main.rs: a six-digit number is valid when
 * its digits never decrease and some maximal run of equal adjacent digits
 * is exactly two long.
 */
module Password {
  import opened RustInt

  /** `type Password = [i32; 6]`. */
  type Password = s: seq<int> | |s| == 6 witness [0, 0, 0, 0, 0, 0]

  /** `digits`: the six lowest decimal digits, most significant first. */
  function Digits(number: int): (d: Password)
    ensures number >= 0 ==> forall k :: 0 <= k < 6 ==> 0 <= d[k] < 10
  {
    [NthDigit(5, number), NthDigit(4, number), NthDigit(3, number),
     NthDigit(2, number), NthDigit(1, number), NthDigit(0, number)]
  }

  /** Digit `5 - k` of `Digits(n)` is the last digit of `n / 10^k`. */
  lemma DigitAt(n: int, k: nat)
    requires 0 <= n && k < 6
    ensures Digits(n)[5 - k] == (n / Pow10(k)) % 10
  {
    NthDigitOfNatural(k, n);
  }

  /** For a number below a million the digits read back as the number. */
  lemma DigitsValue(n: int)
    requires 0 <= n < 1000000
    ensures Decimal(Digits(n)) == n
  {
    var d := Digits(n);
    Pow10Six();
    var q1, q2, q3, q4, q5 := n / 10, n / 100, n / 1000, n / 10000, n / 100000;
    assert d[0] == q5 by { DigitAt(n, 5); }
    assert d[1] == q4 % 10 && q5 == q4 / 10 by { DigitAt(n, 4); DivDiv(n, 10000); }
    assert d[2] == q3 % 10 && q4 == q3 / 10 by { DigitAt(n, 3); DivDiv(n, 1000); }
    assert d[3] == q2 % 10 && q3 == q2 / 10 by { DigitAt(n, 2); DivDiv(n, 100); }
    assert d[4] == q1 % 10 && q2 == q1 / 10 by { DigitAt(n, 1); DivDiv(n, 10); }
    assert d[5] == n % 10 by { DigitAt(n, 0); }
    DecimalPrefix(d, 1);
    DecimalPrefix(d, 2);
    DecimalPrefix(d, 3);
    DecimalPrefix(d, 4);
    DecimalPrefix(d, 5);
    DecimalPrefix(d, 6);
    assert d[..6] == d;
  }

  /** `increasing`: each digit is at most the next one. */
  predicate Increasing(d: Password)
  {
    d[0] <= d[1] && d[1] <= d[2] && d[2] <= d[3] && d[3] <= d[4] && d[4] <= d[5]
  }

  /** Neighbouring comparisons are the same as the digits being sorted. */
  lemma IncreasingIsSorted(d: Password)
    ensures Increasing(d) <==> forall i, j :: 0 <= i <= j < 6 ==> d[i] <= d[j]
  {
  }

  /** A maximal run of equal adjacent digits starts at `j` and is exactly two long. */
  predicate PairAt(d: Password, j: int)
  {
    0 <= j < 5 && d[j] == d[j + 1] &&
    (j == 0 || d[j - 1] != d[j]) &&
    (j + 2 == 6 || d[j + 2] != d[j])
  }

  predicate HasPair(d: Password)
  {
    exists j :: 0 <= j < 5 && PairAt(d, j)
  }

  /**
   * `only_two_adjacent_same`: the outer loop visits the start of each
   * maximal run, the inner loop walks to its last digit counting its length.
   */
  method OnlyTwoAdjacentSame(digits: Password) returns (r: bool)
    ensures r <==> HasPair(digits)
  {
    var i := 0;
    var end := |digits| - 1;
    while i < end
      invariant 0 <= i <= end
      invariant 0 < i < end ==> digits[i - 1] != digits[i]
      invariant forall j :: 0 <= j < i ==> !PairAt(digits, j)
    {
      var start := i;
      var runLen := 1;
      var candidate := digits[i];
      var next := digits[i + 1];
      while candidate == next && i < end - 1
        invariant start <= i < end
        invariant runLen == i - start + 1
        invariant candidate == digits[i] && next == digits[i + 1]
        invariant forall j :: start <= j < i ==> digits[j] == digits[j + 1]
      {
        i := i + 1;
        runLen := runLen + 1;
        candidate := digits[i];
        next := digits[i + 1];
      }
      if candidate == next {
        runLen := runLen + 1;
      }
      if runLen == 2 {
        assert PairAt(digits, start);
        return true;
      }
      NoPairInRun(digits, start, i);
      i := i + 1;
    }
    return false;
  }

  /** Inside a run no new run starts, and the run itself is not a pair. */
  lemma NoPairInRun(d: Password, start: int, last: int)
    requires 0 <= start <= last < 5
    requires start == 0 || d[start - 1] != d[start]
    requires forall j :: start <= j < last ==> d[j] == d[j + 1]
    requires d[last] != d[last + 1] || last == 4
    requires (if d[last] == d[last + 1] then last - start + 2 else last - start + 1) != 2
    ensures forall j :: start <= j <= last ==> !PairAt(d, j)
  {
    forall j | start < j <= last ensures !PairAt(d, j) {
      assert d[j - 1] == d[j];
    }
  }

  /** A number `find_valid` counts. */
  predicate Valid(n: int)
  {
    HasPair(Digits(n)) && Increasing(Digits(n))
  }

  /** Number of valid numbers in the half-open range [lower, upper). */
  function CountValid(lower: int, upper: int): nat
    decreases upper - lower
  {
    if lower >= upper then 0 else (if Valid(lower) then 1 else 0) + CountValid(lower + 1, upper)
  }

  /** The valid numbers in the half-open range [lower, upper). */
  ghost function ValidIn(lower: int, upper: int): set<int>
  {
    set n | lower <= n < upper && Valid(n)
  }

  lemma ValidInSplit(lower: int, upper: int)
    requires lower < upper
    ensures ValidIn(lower, upper) == (if Valid(lower) then {lower} else {}) + ValidIn(lower + 1, upper)
  {
    var all, rest := ValidIn(lower, upper), ValidIn(lower + 1, upper);
    var head: set<int> := if Valid(lower) then {lower} else {};
    forall n ensures n in all <==> n in head + rest {
      if n == lower {
        assert n in all <==> Valid(n);
      } else {
        assert n in all <==> n in rest;
      }
    }
  }

  /** The count is the size of the set of valid numbers in the range. */
  lemma {:induction false} CountValidIsSize(lower: int, upper: int)
    ensures CountValid(lower, upper) == |ValidIn(lower, upper)|
    decreases upper - lower
  {
    if lower < upper {
      CountValidIsSize(lower + 1, upper);
      ValidInSplit(lower, upper);
    } else {
      assert forall n :: n !in ValidIn(lower, upper);
      assert ValidIn(lower, upper) == {};
    }
  }

  /** `find_valid`: count the valid numbers from `lower` up to, not including, `upper`. */
  method FindValid(lower: int, upper: int) returns (count: nat)
    ensures count == CountValid(lower, upper)
  {
    count := 0;
    var number := lower;
    while number < upper
      invariant number <= upper || number == lower
      invariant count + CountValid(number, upper) == CountValid(lower, upper)
      decreases upper - number
    {
      var digits := Digits(number);
      var pair := OnlyTwoAdjacentSame(digits);
      if pair && Increasing(digits) {
        count := count + 1;
      }
      number := number + 1;
    }
  }

  lemma DigitsOfLiteral(n: int, k: nat, q: int)
    requires 0 <= n && k < 6 && q == n / Pow10(k)
    ensures Digits(n)[5 - k] == q % 10
  {
    DigitAt(n, k);
  }

  /** 111110 ends in a decrease. */
  lemma NotIncreasing111110()
    ensures !Valid(111110)
  {
    Pow10Six();
    DigitsOfLiteral(111110, 0, 111110);
    DigitsOfLiteral(111110, 1, 11111);
  }

  /** 111111 is one run of six. */
  lemma NoPair111111()
    ensures !Valid(111111)
  {
    Pow10Six();
    DigitsOfLiteral(111111, 0, 111111);
    DigitsOfLiteral(111111, 1, 11111);
    DigitsOfLiteral(111111, 2, 1111);
    DigitsOfLiteral(111111, 3, 111);
    DigitsOfLiteral(111111, 4, 11);
    DigitsOfLiteral(111111, 5, 1);
  }

  /** The test in 4/src/main.rs: neither 111110 nor 111111 is valid. */
  lemma FindValidExample()
    ensures CountValid(111110, 111112) == 0
  {
    NotIncreasing111110();
    NoPair111111();
    assert CountValid(111112, 111112) == 0;
  }
}
