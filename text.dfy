/**
 * The handful of Rust string operations the puzzles use (`split`, `trim`,
 * `lines`, integer `parse`), on strings as sequences of characters.
 */
module Text {
  import opened Wrappers

  /** The characters with the Unicode White_Space property. */
  const WHITE_SPACE: set<char> := {
    '\t', '\n', '\U{000B}', '\U{000C}', '\r', ' ', '\U{0085}', '\U{00A0}', '\U{1680}',
    '\U{2000}', '\U{2001}', '\U{2002}', '\U{2003}', '\U{2004}', '\U{2005}', '\U{2006}',
    '\U{2007}', '\U{2008}', '\U{2009}', '\U{200A}',
    '\U{2028}', '\U{2029}', '\U{202F}', '\U{205F}', '\U{3000}'
  }

  /** Rust's `char::is_whitespace`. */
  predicate IsSpace(c: char) {
    c in WHITE_SPACE
  }

  predicate IsDigit(c: char) {
    '0' <= c <= '9'
  }

  function DigitValue(c: char): (d: nat)
    requires IsDigit(c)
    ensures d < 10
  {
    (c as int) - ('0' as int)
  }

  /** `str::trim_start`. */
  function TrimStart(s: string): (r: string)
    ensures |r| <= |s| && r == s[|s| - |r|..]
    ensures r == [] || !IsSpace(r[0])
  {
    if s != [] && IsSpace(s[0]) then TrimStart(s[1..]) else s
  }

  /** `str::trim_end`. */
  function TrimEnd(s: string): (r: string)
    ensures |r| <= |s| && r == s[..|r|]
    ensures r == [] || !IsSpace(r[|r| - 1])
  {
    if s != [] && IsSpace(s[|s| - 1]) then TrimEnd(s[..|s| - 1]) else s
  }

  /** `str::trim`: leading and trailing whitespace removed. */
  function Trim(s: string): (r: string)
    ensures r == [] || (!IsSpace(r[0]) && !IsSpace(r[|r| - 1]))
  {
    TrimEnd(TrimStart(s))
  }

  /** `sep` occurs in `s` starting at index `k`. */
  predicate OccursAt(s: string, sep: string, k: nat) {
    k + |sep| <= |s| && s[k..k + |sep|] == sep
  }

  /** Index of the first occurrence of `sep` in `s` at or after `from`, if any. */
  function Find(s: string, sep: string, from: nat): (r: Option<nat>)
    requires |sep| > 0
    ensures r.Some? ==> from <= r.value && OccursAt(s, sep, r.value)
    ensures r.Some? ==> forall k :: from <= k < r.value ==> !OccursAt(s, sep, k)
    ensures r.None? ==> forall k :: from <= k ==> !OccursAt(s, sep, k)
    decreases |s| - from
  {
    if from + |sep| > |s| then None
    else if OccursAt(s, sep, from) then Some(from)
    else Find(s, sep, from + 1)
  }

  /**
   * `str::split` with a non-empty separator: the pieces between the
   * non-overlapping occurrences of `sep`, scanning left to right. There is
   * always at least one piece; the empty string gives `[""]`.
   */
  function Split(s: string, sep: string): (r: seq<string>)
    requires |sep| > 0
    ensures |r| >= 1
    decreases |s|
  {
    match Find(s, sep, 0)
    case None => [s]
    case Some(k) => [s[..k]] + Split(s[k + |sep|..], sep)
  }

  /** Joining the pieces back with the separator gives the original string. */
  function Join(pieces: seq<string>, sep: string): string
    requires |pieces| >= 1
  {
    if |pieces| == 1 then pieces[0] else pieces[0] + sep + Join(pieces[1..], sep)
  }

  lemma {:induction false} SplitJoin(s: string, sep: string)
    requires |sep| > 0
    ensures Join(Split(s, sep), sep) == s
    decreases |s|
  {
    match Find(s, sep, 0)
    case None =>
    case Some(k) =>
      SplitJoin(s[k + |sep|..], sep);
      assert s == s[..k] + sep + s[k + |sep|..];
  }

  /** A single-character separator never occurs inside a piece. */
  lemma {:induction false} SplitPiecesFree(s: string, c: char)
    ensures forall i, j :: 0 <= i < |Split(s, [c])| && 0 <= j < |Split(s, [c])[i]| ==> Split(s, [c])[i][j] != c
    decreases |s|
  {
    var r := Split(s, [c]);
    match Find(s, [c], 0)
    case None =>
      forall j | 0 <= j < |s| ensures s[j] != c {
        assert !OccursAt(s, [c], j);
        assert s[j..j + 1] == [s[j]];
      }
    case Some(k) =>
      SplitPiecesFree(s[k + 1..], c);
      forall j | 0 <= j < k ensures s[j] != c {
        assert !OccursAt(s, [c], j);
        assert s[j..j + 1] == [s[j]];
      }
      forall i, j | 0 <= i < |r| && 0 <= j < |r[i]| ensures r[i][j] != c {
        if i > 0 {
          assert r[i] == Split(s[k + 1..], [c])[i - 1];
        }
      }
  }

  /**
   * `str::lines`: the pieces between '\n' characters, without a final empty
   * piece when the text ends with '\n', each with one trailing '\r' removed.
   */
  function Lines(s: string): (r: seq<string>)
  {
    if s == [] then []
    else
      var pieces := Split(s, "\n");
      var body := if pieces[|pieces| - 1] == [] then pieces[..|pieces| - 1] else pieces;
      seq(|body|, i requires 0 <= i < |body| => StripCr(body[i]))
  }

  function StripCr(line: string): (r: string)
  {
    if line != [] && line[|line| - 1] == '\r' then line[..|line| - 1] else line
  }

  /** Decimal value of a string of digits, most significant first. */
  function DecimalValue(s: string): nat
    requires forall i :: 0 <= i < |s| ==> IsDigit(s[i])
  {
    if s == [] then 0 else 10 * DecimalValue(s[..|s| - 1]) + DigitValue(s[|s| - 1])
  }

  predicate AllDigits(s: string) {
    forall i :: 0 <= i < |s| ==> IsDigit(s[i])
  }

  /** `str::parse` for an unsigned type: an optional '+' and one or more digits. */
  function ParseNat(s: string): (r: Option<nat>)
    ensures r.Some? <==> (AllDigits(s) && s != []) || (s != [] && s[0] == '+' && s[1..] != [] && AllDigits(s[1..]))
  {
    var body := if s != [] && s[0] == '+' then s[1..] else s;
    if body != [] && AllDigits(body) then Some(DecimalValue(body)) else None
  }

  /** `str::parse` for a signed type: an optional sign and one or more digits. */
  function ParseInt(s: string): (r: Option<int>)
    ensures s != [] && s[0] == '-' ==> (r.Some? <==> ParseNat(s[1..]).Some? && s[1..] != [] && s[1] != '+')
  {
    if s != [] && s[0] == '-' then
      var body := s[1..];
      if body != [] && AllDigits(body) then Some(-(DecimalValue(body) as int)) else None
    else
      match ParseNat(s)
      case Some(n) => Some(n as int)
      case None => None
  }

  /**
   * `lines.map(parse).collect::<Result<Vec<_>, _>>()`, where `parse` also
   * gets the line's index: every line parsed in order, or the error of the
   * first line that does not parse.
   */
  function ParseEach<T, E>(lines: seq<string>, parse: (string, nat) -> Result<T, E>): (r: Result<seq<T>, E>)
    ensures r.Ok? ==> |r.value| == |lines|
    ensures r.Ok? ==> forall i :: 0 <= i < |lines| ==> parse(lines[i], i) == Ok(r.value[i])
    ensures r.Err? ==> exists k :: 0 <= k < |lines| && parse(lines[k], k) == Err(r.error) && forall i :: 0 <= i < k ==> parse(lines[i], i).Ok?
  {
    if lines == [] then Ok([])
    else
      var last := |lines| - 1;
      var init :- ParseEach(lines[..last], parse);
      var x :- parse(lines[last], last);
      Ok(init + [x])
  }

  /** A line whose parse fails, after lines that all parse, decides the error. */
  lemma ParseEachFirstError<T, E>(lines: seq<string>, parse: (string, nat) -> Result<T, E>, k: nat)
    requires k < |lines| && parse(lines[k], k).Err?
    requires forall i :: 0 <= i < k ==> parse(lines[i], i).Ok?
    ensures ParseEach(lines, parse) == Err(parse(lines[k], k).error)
  {
  }

  /** Lines that all parse give their values in order. */
  lemma ParseEachAllOk<T, E>(lines: seq<string>, parse: (string, nat) -> Result<T, E>, values: seq<T>)
    requires |values| == |lines|
    requires forall i :: 0 <= i < |lines| ==> parse(lines[i], i) == Ok(values[i])
    ensures ParseEach(lines, parse) == Ok(values)
  {
    var r := ParseEach(lines, parse);
    assert r.Ok?;
    assert forall i :: 0 <= i < |lines| ==> r.value[i] == values[i];
    assert r.value == values;
  }

  /** Parsing one more line after a prefix that parses. */
  lemma ParseEachExtend<T, E>(lines: seq<string>, parse: (string, nat) -> Result<T, E>, k: nat, values: seq<T>)
    requires k < |lines| && ParseEach(lines[..k], parse) == Ok(values)
    ensures parse(lines[k], k).Ok? ==> ParseEach(lines[..k + 1], parse) == Ok(values + [parse(lines[k], k).value])
    ensures parse(lines[k], k).Err? ==> ParseEach(lines, parse) == Err(parse(lines[k], k).error)
  {
    assert lines[..k + 1][..k] == lines[..k];
    if parse(lines[k], k).Err? {
      forall i | 0 <= i < k
        ensures parse(lines[i], i).Ok?
      {
        assert lines[..k][i] == lines[i];
      }
      ParseEachFirstError(lines, parse, k);
    }
  }

  /** The character of a decimal digit. */
  function DigitChar(d: nat): (c: char)
    requires d < 10
    ensures IsDigit(c) && DigitValue(c) == d
  {
    ('0' as int + d) as char
  }

  /** The decimal numeral of `n`, without sign or leading zeros, as Rust's `Display` writes it. */
  function NatString(n: nat): (s: string)
    ensures s != [] && AllDigits(s)
    ensures DecimalValue(s) == n
  {
    if n < 10 then [DigitChar(n)]
    else
      var init := NatString(n / 10);
      var s := init + [DigitChar(n % 10)];
      assert s[..|s| - 1] == init;
      s
  }

  /** Parsing the numeral of `n` gives back `n`. */
  lemma ParseNatString(n: nat)
    ensures ParseNat(NatString(n)) == Some(n)
  {
    assert IsDigit(NatString(n)[0]);
  }

  /** Leading whitespace is dropped by `trim_start`. */
  lemma {:induction false} TrimStartSpaces(pad: string, s: string)
    requires forall i :: 0 <= i < |pad| ==> IsSpace(pad[i])
    ensures TrimStart(pad + s) == TrimStart(s)
    decreases |pad|
  {
    if pad != [] {
      var t := pad + s;
      assert t[0] == pad[0] && t[1..] == pad[1..] + s;
      assert TrimStart(t) == TrimStart(t[1..]);
      TrimStartSpaces(pad[1..], s);
    } else {
      assert pad + s == s;
    }
  }

  /** Trimming an indented string that ends in a non-space leaves the string without its indentation. */
  lemma TrimIndented(pad: string, s: string)
    requires forall i :: 0 <= i < |pad| ==> IsSpace(pad[i])
    requires s != [] && !IsSpace(s[0]) && !IsSpace(s[|s| - 1])
    ensures Trim(pad + s) == s
  {
    TrimStartSpaces(pad, s);
    TrimUnchanged(s);
  }

  /** Trimming a string that starts and ends with a non-space changes nothing. */
  lemma TrimUnchanged(s: string)
    requires s != [] && !IsSpace(s[0]) && !IsSpace(s[|s| - 1])
    ensures Trim(s) == s
  {
    assert TrimStart(s) == s;
  }

  /** A string without the separator character is one piece. */
  lemma SplitNone(a: string, c: char)
    requires forall i :: 0 <= i < |a| ==> a[i] != c
    ensures Split(a, [c]) == [a]
  {
    forall k | 0 <= k
      ensures !OccursAt(a, [c], k)
    {
      if k + 1 <= |a| {
        assert a[k..k + 1][0] == a[k];
      }
    }
    assert Find(a, [c], 0) == None;
  }

  /** The first piece ends at the first separator character. */
  lemma SplitFirst(a: string, c: char, rest: string)
    requires forall i :: 0 <= i < |a| ==> a[i] != c
    ensures Split(a + [c] + rest, [c]) == [a] + Split(rest, [c])
  {
    var s := a + [c] + rest;
    assert OccursAt(s, [c], |a|) by {
      assert s[|a|..|a| + 1] == [c];
    }
    forall k | 0 <= k < |a|
      ensures !OccursAt(s, [c], k)
    {
      assert s[k..k + 1] == [a[k]];
    }
    assert Find(s, [c], 0) == Some(|a|);
    assert s[|a| + 1..] == rest;
    assert s[..|a|] == a;
  }

  /** Splitting at the one separator character between two separator-free pieces gives the two pieces. */
  lemma SplitAtSeparator(a: string, c: char, b: string)
    requires forall i :: 0 <= i < |a| ==> a[i] != c
    requires forall i :: 0 <= i < |b| ==> b[i] != c
    ensures Split(a + [c] + b, [c]) == [a, b]
  {
    SplitFirst(a, c, b);
    SplitNone(b, c);
  }

  /** Splitting undoes joining, when no piece contains the separator character. */
  lemma {:induction false} SplitJoined(pieces: seq<string>, c: char)
    requires |pieces| >= 1
    requires forall i, j :: 0 <= i < |pieces| && 0 <= j < |pieces[i]| ==> pieces[i][j] != c
    ensures Split(Join(pieces, [c]), [c]) == pieces
  {
    if |pieces| == 1 {
      SplitNone(pieces[0], c);
    } else {
      SplitJoined(pieces[1..], c);
      SplitFirst(pieces[0], c, Join(pieces[1..], [c]));
      assert [pieces[0]] + pieces[1..] == pieces;
    }
  }

  /** The decimal numeral of `x`, '-' first when it is negative, as Rust's `Display` writes it. */
  function IntString(x: int): (s: string)
    ensures s != []
    ensures forall i :: 0 <= i < |s| ==> IsDigit(s[i]) || (i == 0 && s[i] == '-')
  {
    if x < 0 then "-" + NatString(-x) else NatString(x)
  }

  /** Parsing the numeral of `x` gives back `x`. */
  lemma ParseIntString(x: int)
    ensures ParseInt(IntString(x)) == Some(x)
  {
    if x < 0 {
      assert IntString(x)[1..] == NatString(-x);
    } else {
      ParseNatString(x);
    }
  }
}
