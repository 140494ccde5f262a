/**
 * Wire segments of 3/src/main.rs: a wire path such as "R8,U5,L5" becomes
 * one segment per step, each starting where the previous one ended.
 */
module Wires {
  import opened Wrappers
  import opened Text

  datatype Point = Point(x: int, y: int)

  datatype Line = Line(start: Point, end: Point)

  /** Why a step of the path panics. */
  datatype WireError =
    | BadCount(index: nat)     // `op[1..]` is empty, out of range or not a number
    | BadDirection(index: nat) // the first character is none of U, D, L, R

  datatype Step = Step(dir: char, count: int)

  /** One token: the count after the first character is parsed first, then the direction is checked. */
  function ParseStep(op: string, index: nat): (r: Result<Step, WireError>)
    ensures r.Ok? ==> r.value.dir in "UDLR" && |op| >= 1 && r.value.dir == op[0]
    ensures r.Ok? ==> ParseInt(op[1..]) == Some(r.value.count)
    ensures r.Err? ==> r.error.index == index
  {
    if |op| == 0 then Err(BadCount(index))
    else match ParseInt(op[1..])
      case None => Err(BadCount(index))
      case Some(count) =>
        if op[0] in "UDLR" then Ok(Step(op[0], count)) else Err(BadDirection(index))
  }

  /** Where a step of `count` units in direction `dir` leads from `p`. */
  function Move(p: Point, step: Step): (q: Point)
    requires step.dir in "UDLR"
    ensures step.dir in "UD" ==> q.x == p.x && q.y == p.y + (if step.dir == 'U' then step.count else -step.count)
    ensures step.dir in "LR" ==> q.y == p.y && q.x == p.x + (if step.dir == 'R' then step.count else -step.count)
  {
    match step.dir
    case 'U' => p.(y := p.y + step.count)
    case 'D' => p.(y := p.y - step.count)
    case 'L' => p.(x := p.x - step.count)
    case 'R' => p.(x := p.x + step.count)
  }

  /** Every token of the path is a valid step. */
  predicate AllParse(tokens: seq<string>) {
    forall i :: 0 <= i < |tokens| ==> ParseStep(tokens[i], i).Ok?
  }

  /** The tokens before `k` parse and the token at `k` fails with `e`. */
  predicate FailsFirstAt(tokens: seq<string>, k: nat, e: WireError) {
    k < |tokens| && ParseStep(tokens[k], k) == Err(e) &&
    forall i :: 0 <= i < k ==> ParseStep(tokens[i], i).Ok?
  }

  /**
   * `segs` is the walk over the first `|segs|` tokens: it starts at the
   * origin and each segment starts where the previous one ended and ends
   * where its step leads.
   */
  predicate Walks(tokens: seq<string>, segs: seq<Line>) {
    |segs| <= |tokens| &&
    (|segs| > 0 ==> segs[0].start == Point(0, 0)) &&
    (forall i :: 0 < i < |segs| ==> segs[i].start == segs[i - 1].end) &&
    forall i :: 0 <= i < |segs| ==>
      ParseStep(tokens[i], i).Ok? && segs[i].end == Move(segs[i].start, ParseStep(tokens[i], i).value)
  }

  /**
   * `wire_segments`: the map closure threads the current position through
   * the tokens; the first token that panics ends the walk.
   */
  method WireSegments(line: string) returns (r: Result<seq<Line>, WireError>)
    ensures r.Err? <==> !AllParse(Split(line, ","))
    ensures r.Err? ==> FailsFirstAt(Split(line, ","), r.error.index, r.error)
    ensures r.Ok? ==> |r.value| == |Split(line, ",")| && Walks(Split(line, ","), r.value)
  {
    var tokens := Split(line, ",");
    var x, y := 0, 0;
    var segments: seq<Line> := [];
    for k := 0 to |tokens|
      invariant |segments| == k
      invariant Walks(tokens, segments)
      invariant Point(x, y) == if k == 0 then Point(0, 0) else segments[k - 1].end
    {
      var parsed := ParseStep(tokens[k], k);
      if parsed.Err? {
        FirstBad(tokens, segments, k, parsed.error);
        return Err(parsed.error);
      }
      var step := parsed.value;
      var start := Point(x, y);
      match step.dir {
        case 'U' => y := y + step.count;
        case 'D' => y := y - step.count;
        case 'L' => x := x - step.count;
        case 'R' => x := x + step.count;
      }
      assert Point(x, y) == Move(start, step);
      WalksExtend(tokens, segments, Line(start, Point(x, y)));
      segments := segments + [Line(start, Point(x, y))];
    }
    AllWalked(tokens, segments);
    return Ok(segments);
  }

  /** A walk grows by the segment of the next token, from where the walk ended. */
  lemma WalksExtend(tokens: seq<string>, segs: seq<Line>, line: Line)
    requires Walks(tokens, segs) && |segs| < |tokens|
    requires ParseStep(tokens[|segs|], |segs|).Ok?
    requires line.start == if |segs| == 0 then Point(0, 0) else segs[|segs| - 1].end
    requires line.end == Move(line.start, ParseStep(tokens[|segs|], |segs|).value)
    ensures Walks(tokens, segs + [line])
  {
    var next := segs + [line];
    forall i | 0 <= i < |next|
      ensures ParseStep(tokens[i], i).Ok? && next[i].end == Move(next[i].start, ParseStep(tokens[i], i).value)
    {
      if i < |segs| {
        assert next[i] == segs[i];
      } else {
        assert i == |segs| && next[i] == line;
      }
    }
    forall i | 0 < i < |next|
      ensures next[i].start == next[i - 1].end
    {
      if i < |segs| {
        assert next[i] == segs[i] && next[i - 1] == segs[i - 1];
      }
    }
  }

  lemma FirstBad(tokens: seq<string>, segs: seq<Line>, k: nat, e: WireError)
    requires |segs| == k && Walks(tokens, segs)
    requires k < |tokens| && ParseStep(tokens[k], k) == Err(e)
    ensures FailsFirstAt(tokens, e.index, e)
    ensures !AllParse(tokens)
  {
  }

  lemma AllWalked(tokens: seq<string>, segs: seq<Line>)
    requires |segs| == |tokens| && Walks(tokens, segs)
    ensures AllParse(tokens)
  {
  }
}
