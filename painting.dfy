/**
 * The hull-painting robot of 11/src/lib.rs. An Intcode machine is the
 * robot's brain: it is given the colour of the panel under the robot, and
 * answers with the colour to paint and the way to turn, after which the
 * robot steps one panel forward. `paint` keeps the painted panels in a map;
 * `print_panels` draws them as text.
 */
module Painting {
  import opened Wrappers
  import opened IntcodeDecode
  import M = IntcodeMachine
  import P = IntcodeProperties
  import Intcode

  datatype Color = Black | White

  datatype Turn = CounterClockwise | Clockwise

  datatype Dir = Up | Right | Down | Left

  type Coord = (int, int)

  /** The painted panels: every panel the robot painted, with the colour it painted last. */
  type Panels = map<Coord, Color>

  /** `color as Op`: the enum's discriminant. */
  function Code(c: Color): (op: int)
    ensures op == 0 || op == 1
  {
    match c
    case Black => 0
    case White => 1
  }

  /** `Color::try_from`: 0 is black, 1 is white, anything else is the error `()`. */
  function ColorFrom(op: int): (r: Option<Color>)
    ensures r.Some? <==> op == 0 || op == 1
    ensures r.Some? ==> Code(r.value) == op
  {
    if op == 0 then Some(Black) else if op == 1 then Some(White) else None
  }

  /** Reading back a colour's code gives the colour. */
  lemma ColorCodeRoundTrip(c: Color)
    ensures ColorFrom(Code(c)) == Some(c)
  {
  }

  /** `Turn::try_from`: 0 turns counter-clockwise, 1 clockwise, anything else is the error `()`. */
  function TurnFrom(op: int): (r: Option<Turn>)
    ensures r == Some(CounterClockwise) <==> op == 0
    ensures r == Some(Clockwise) <==> op == 1
    ensures r.None? <==> op != 0 && op != 1
  {
    if op == 0 then Some(CounterClockwise) else if op == 1 then Some(Clockwise) else None
  }

  /** The position of a direction on the compass, clockwise from up. */
  function Bearing(d: Dir): (b: int)
    ensures 0 <= b < 4
  {
    match d
    case Up => 0
    case Right => 1
    case Down => 2
    case Left => 3
  }

  /**
   * The turn table of `paint`. A clockwise turn moves one place on round
   * the compass Up, Right, Down, Left; a counter-clockwise turn moves one
   * place back.
   */
  function Rotate(d: Dir, t: Turn): (r: Dir)
    ensures t == Clockwise ==> Bearing(r) == (Bearing(d) + 1) % 4
    ensures t == CounterClockwise ==> Bearing(r) == (Bearing(d) + 3) % 4
  {
    match t
    case CounterClockwise => (
      match d
      case Up => Left
      case Right => Up
      case Down => Right
      case Left => Down)
    case Clockwise => (
      match d
      case Up => Right
      case Right => Down
      case Down => Left
      case Left => Up)
  }

  /** A direction is fixed by its bearing. */
  lemma SameBearing(a: Dir, b: Dir)
    requires Bearing(a) == Bearing(b)
    ensures a == b
  {
  }

  /** The two turns undo each other, and four turns the same way come back to the start. */
  lemma {:induction false} TurnsUndo(d: Dir, t: Turn)
    ensures Rotate(Rotate(d, Clockwise), CounterClockwise) == d
    ensures Rotate(Rotate(d, CounterClockwise), Clockwise) == d
    ensures Rotate(Rotate(Rotate(Rotate(d, t), t), t), t) == d
  {
    var b := Bearing(d);
    SameBearing(Rotate(Rotate(d, Clockwise), CounterClockwise), d);
    SameBearing(Rotate(Rotate(d, CounterClockwise), Clockwise), d);
    var k := if t == Clockwise then 1 else 3;
    var r1 := Rotate(d, t);
    var r2 := Rotate(r1, t);
    var r3 := Rotate(r2, t);
    var r4 := Rotate(r3, t);
    assert Bearing(r1) == (b + k) % 4;
    assert Bearing(r4) == (((((b + k) % 4 + k) % 4 + k) % 4) + k) % 4;
    SameBearing(r4, d);
  }

  /** One step of the robot: exactly one coordinate changes, by one, up being `+y`. */
  function Move(pos: Coord, d: Dir): (r: Coord)
    ensures d == Up ==> r == (pos.0, pos.1 + 1)
    ensures d == Down ==> r == (pos.0, pos.1 - 1)
    ensures d == Right ==> r == (pos.0 + 1, pos.1)
    ensures d == Left ==> r == (pos.0 - 1, pos.1)
  {
    match d
    case Up => (pos.0, pos.1 + 1)
    case Down => (pos.0, pos.1 - 1)
    case Right => (pos.0 + 1, pos.1)
    case Left => (pos.0 - 1, pos.1)
  }

  /** Turning round (two turns the same way) and stepping again leads back to the panel the robot left. */
  lemma MoveBack(pos: Coord, d: Dir, t: Turn)
    ensures Move(Move(pos, d), Rotate(Rotate(d, t), t)) == pos
    ensures (Move(pos, d).0 == pos.0) != (Move(pos, d).1 == pos.1)
  {
  }

  /** `panels.get(&pos)`, falling back to `initial_color` for a panel never painted. */
  function PanelColor(panels: Panels, pos: Coord, initial: Color): (c: Color)
    ensures pos in panels ==> c == panels[pos]
    ensures pos !in panels ==> c == initial
  {
    if pos in panels then panels[pos] else initial
  }

  /** Everything `paint` keeps between two rounds of its loop. */
  datatype Robot = Robot(machine: M.Machine, panels: Panels, pos: Coord, dir: Dir)

  /**
   * How `paint` ends: `Ok(panels)`, the `Err(())` of an output that is not
   * a colour or a turn, the panic of a malformed program or of a faulting
   * machine, or one of the two bounds running out.
   */
  datatype PaintOutcome =
    | Painted(panels: Panels)
    | Rejected
    | BadProgram
    | Crashed(fault: Fault)
    | OutOfFuel
    | OutOfRounds

  datatype RoundResult = Finished(outcome: PaintOutcome) | Continue(robot: Robot)

  /** The outcome of a call of `compute_output` that did not produce an output. */
  function Stopped(s: M.Signal, panels: Panels): PaintOutcome
    requires !s.Output?
  {
    match s
    case Halt => Painted(panels)
    case Crash(f) => Crashed(f)
    case OutOfFuel => OutOfFuel
  }

  /**
   * One pass of the loop of `paint`: the panel's colour is input, the first
   * output is the colour to paint and the second the turn; the panel is
   * painted, then the robot turns and steps. A halt returns the panels.
   */
  function Round(r: Robot, initial: Color, fuel: nat): RoundResult {
    var fed := M.Input(r.machine, Code(PanelColor(r.panels, r.pos, initial)));
    var first := M.ComputeOutput(fed, fuel);
    if !first.signal.Output? then Finished(Stopped(first.signal, r.panels))
    else
      match ColorFrom(first.signal.value)
      case None => Finished(Rejected)
      case Some(color) => Steer(r, first.machine, color, fuel)
  }

  /** The second half of a round: the turn is read, then the panel painted `color` and the robot moved. */
  function Steer(r: Robot, machine: M.Machine, color: Color, fuel: nat): RoundResult {
    var second := M.ComputeOutput(machine, fuel);
    if !second.signal.Output? then Finished(Stopped(second.signal, r.panels))
    else
      match TurnFrom(second.signal.value)
      case None => Finished(Rejected)
      case Some(t) =>
        var dir := Rotate(r.dir, t);
        Continue(Robot(second.machine, r.panels[r.pos := color], Move(r.pos, dir), dir))
  }

  /** `paint` from robot `r`, for at most `rounds` passes of its loop. */
  function PaintFrom(r: Robot, initial: Color, rounds: nat, fuel: nat): PaintOutcome
    decreases rounds
  {
    if rounds == 0 then OutOfRounds
    else
      match Round(r, initial, fuel)
      case Finished(o) => o
      case Continue(next) => PaintFrom(next, initial, rounds - 1, fuel)
  }

  /** The robot at the start: on panel (0, 0), facing up, nothing painted. */
  function Start(ops: seq<int>): (r: Robot)
    ensures r.panels == map[] && r.pos == (0, 0) && r.dir == Up && r.machine == M.Init(ops)
  {
    Robot(M.Init(ops), map[], (0, 0), Up)
  }

  /**
   * What a full round does: the robot's panel, and only that one, gets the
   * colour of the first output; the machine was given that panel's colour
   * and gave two outputs, the colour and the turn; the robot turned by the
   * second and stepped one panel the new way.
   */
  lemma RoundEffect(r: Robot, initial: Color, fuel: nat)
    requires Round(r, initial, fuel).Continue?
    ensures var next := Round(r, initial, fuel).robot;
      var n := |r.machine.output|;
      && next.machine.input == r.machine.input + [Code(PanelColor(r.panels, r.pos, initial))]
      && |next.machine.output| == n + 2
      && next.machine.output[..n] == r.machine.output
      && r.pos in next.panels && ColorFrom(next.machine.output[n]) == Some(next.panels[r.pos])
      && (forall p :: p != r.pos ==> (p in next.panels <==> p in r.panels))
      && (forall p :: p != r.pos && p in r.panels ==> next.panels[p] == r.panels[p])
      && TurnFrom(next.machine.output[n + 1]).Some?
      && next.dir == Rotate(r.dir, TurnFrom(next.machine.output[n + 1]).value)
      && next.pos == Move(r.pos, next.dir)
  {
    var fed := M.Input(r.machine, Code(PanelColor(r.panels, r.pos, initial)));
    var first := M.ComputeOutput(fed, fuel);
    P.ComputeOutputLog(fed, fuel);
    var second := M.ComputeOutput(first.machine, fuel);
    P.ComputeOutputLog(first.machine, fuel);
    assert second.machine.output == r.machine.output + [first.signal.value] + [second.signal.value];
  }

  /** A round that finishes without a full pass: a halt returns the panels as they are, a non-colour or non-turn output is the error. */
  lemma RoundStops(r: Robot, initial: Color, fuel: nat)
    requires Round(r, initial, fuel).Finished?
    ensures var fed := M.Input(r.machine, Code(PanelColor(r.panels, r.pos, initial)));
      var first := M.ComputeOutput(fed, fuel);
      var o := Round(r, initial, fuel).outcome;
      && (first.signal == M.Halt ==> o == Painted(r.panels))
      && (first.signal.Output? && ColorFrom(first.signal.value).None? ==> o == Rejected)
      && (first.signal.Output? && ColorFrom(first.signal.value).Some? ==>
            var second := M.ComputeOutput(first.machine, fuel);
            (second.signal == M.Halt ==> o == Painted(r.panels)) &&
            (second.signal.Output? ==> TurnFrom(second.signal.value).None? && o == Rejected))
  {
  }

  /** A full round paints the robot's panel and no other. */
  lemma RoundPaintsOnePanel(r: Robot, initial: Color, fuel: nat)
    requires Round(r, initial, fuel).Continue?
    ensures Round(r, initial, fuel).robot.panels.Keys == r.panels.Keys + {r.pos}
  {
  }

  /** A pass that leads to a robot leaves the rest of the run to that robot. */
  lemma PaintNext(r: Robot, initial: Color, rounds: nat, rest: nat, fuel: nat)
    requires rounds == rest + 1
    ensures Round(r, initial, fuel).Finished? ==> PaintFrom(r, initial, rounds, fuel) == Round(r, initial, fuel).outcome
    ensures Round(r, initial, fuel).Continue? ==>
      PaintFrom(r, initial, rounds, fuel) == PaintFrom(Round(r, initial, fuel).robot, initial, rest, fuel)
  {
  }

  /**
   * Over a whole run panels are only ever added: the panels returned
   * include every panel painted before.
   */
  lemma {:induction false} PanelsOnlyGrow(r: Robot, initial: Color, rounds: nat, fuel: nat)
    requires PaintFrom(r, initial, rounds, fuel).Painted?
    ensures r.panels.Keys <= PaintFrom(r, initial, rounds, fuel).panels.Keys
    decreases rounds
  {
    var rest := rounds - 1;
    PaintNext(r, initial, rounds, rest, fuel);
    var round := Round(r, initial, fuel);
    if round.Continue? {
      RoundPaintsOnePanel(r, initial, fuel);
      PanelsOnlyGrow(round.robot, initial, rest, fuel);
    }
  }

  /** The body of the loop of `paint`, on the machine in place. */
  method PaintRound(computer: Intcode.IntCode, panels: Panels, pos: Coord, dir: Dir, initial: Color, fuel: nat)
      returns (done: Option<PaintOutcome>, panels': Panels, pos': Coord, dir': Dir)
    modifies computer, computer.ops
    ensures var round := Round(Robot(old(computer.State()), panels, pos, dir), initial, fuel);
      && (round.Finished? ==> done == Some(round.outcome))
      && (round.Continue? ==> done.None? && round.robot == Robot(computer.State(), panels', pos', dir'))
  {
    panels', pos', dir' := panels, pos, dir;
    var panelColor := PanelColor(panels, pos, initial);
    computer.Input(Code(panelColor));
    var first := computer.ComputeOutput(fuel);
    if !first.Output? {
      return Some(Stopped(first, panels)), panels', pos', dir';
    }
    var newColor := ColorFrom(first.value);
    if newColor.None? {
      return Some(Rejected), panels', pos', dir';
    }
    var second := computer.ComputeOutput(fuel);
    if !second.Output? {
      return Some(Stopped(second, panels)), panels', pos', dir';
    }
    var turn := TurnFrom(second.value);
    if turn.None? {
      return Some(Rejected), panels', pos', dir';
    }
    dir' := Rotate(dir, turn.value);
    panels' := panels[pos := newColor.value];
    pos' := Move(pos, dir');
    done := None;
  }

  /**
   * `paint`: a fresh machine over the program, then rounds until the
   * machine halts or answers with something that is not a colour or a
   * turn, for at most `rounds` rounds of at most `fuel` instructions per
   * output.
   */
  method Paint(program: string, initial: Color, rounds: nat, fuel: nat) returns (r: PaintOutcome)
    ensures M.InitOps(program).Err? ==> r == BadProgram
    ensures M.InitOps(program).Ok? ==> r == PaintFrom(Start(M.InitOps(program).value), initial, rounds, fuel)
  {
    var made := Intcode.New(program);
    if made.Err? {
      return BadProgram;
    }
    var computer := made.value;
    var panels: Panels := map[];
    var pos: Coord := (0, 0);
    var dir := Up;
    ghost var outcome := PaintFrom(Robot(computer.State(), panels, pos, dir), initial, rounds, fuel);
    var left := rounds;
    while true
      invariant fresh(computer) && fresh(computer.ops)
      invariant outcome == PaintFrom(Robot(computer.State(), panels, pos, dir), initial, left, fuel)
      decreases left
    {
      if left == 0 {
        return OutOfRounds;
      }
      ghost var robot := Robot(computer.State(), panels, pos, dir);
      var done;
      done, panels, pos, dir := PaintRound(computer, panels, pos, dir, initial, fuel);
      var rest := left - 1;
      PaintNext(robot, initial, left, rest, fuel);
      if done.Some? {
        return done.value;
      }
      left := rest;
    }
  }

  /** The x coordinates of the painted panels, shifted by `dx`. */
  function ShiftedXs(panels: Panels, dx: int): set<int> {
    set p | p in panels :: p.0 + dx
  }

  /** The y coordinates of the painted panels, shifted by `dy`. */
  function ShiftedYs(panels: Panels, dy: int): set<int> {
    set p | p in panels :: p.1 + dy
  }

  /** A non-empty set has an element. */
  lemma Inhabited(s: set<int>)
    requires s != {}
    ensures exists x :: x in s
  {
    assert (forall y :: y !in s) ==> s == {};
  }

  /** A non-empty map has a key. */
  lemma HasPanel(panels: Panels)
    requires panels != map[]
    ensures exists p :: p in panels
  {
    assert (forall p :: p !in panels) ==> panels == map[];
  }

  /** A set's least element. */
  ghost function Least(s: set<int>): (m: int)
    requires s != {}
    ensures m in s && forall x :: x in s ==> m <= x
  {
    Inhabited(s);
    var x :| x in s;
    if s == {x} then x
    else
      var m := Least(s - {x});
      assert forall y :: y in s ==> y == x || y in s - {x};
      if x < m then x else m
  }

  /** A set's greatest element. */
  ghost function Greatest(s: set<int>): (m: int)
    requires s != {}
    ensures m in s && forall x :: x in s ==> x <= m
  {
    Inhabited(s);
    var x :| x in s;
    if s == {x} then x
    else
      var m := Greatest(s - {x});
      assert forall y :: y in s ==> y == x || y in s - {x};
      if x > m then x else m
  }

  /** `.min()` over the values of a non-empty iterator. */
  method LeastOf(s: set<int>) returns (m: int)
    requires s != {}
    ensures m == Least(s)
  {
    var rest := s;
    Inhabited(rest);
    m :| m in rest;
    while rest != {}
      invariant rest <= s && m in s
      invariant forall y :: y in s && y !in rest ==> m <= y
      decreases rest
    {
      Inhabited(rest);
      var x :| x in rest;
      if x < m {
        m := x;
      }
      rest := rest - {x};
    }
  }

  /** `.max()` over the values of a non-empty iterator. */
  method GreatestOf(s: set<int>) returns (m: int)
    requires s != {}
    ensures m == Greatest(s)
  {
    var rest := s;
    Inhabited(rest);
    m :| m in rest;
    while rest != {}
      invariant rest <= s && m in s
      invariant forall y :: y in s && y !in rest ==> y <= m
      decreases rest
    {
      Inhabited(rest);
      var x :| x in rest;
      if x > m {
        m := x;
      }
      rest := rest - {x};
    }
  }

  function Abs(x: int): nat {
    if x < 0 then -x else x
  }

  /**
   * The window `print_panels` draws: x is shifted by `minX`, the absolute
   * value of the least x, and runs from 0 to `maxX`, the greatest shifted
   * x; y likewise.
   */
  datatype Window = Window(minX: nat, minY: nat, maxX: nat, maxY: nat)

  /** A panel's coordinates, shifted, are among the shifted coordinates. */
  lemma Shifted(panels: Panels, p: Coord, dx: int, dy: int)
    requires p in panels
    ensures p.0 + dx in ShiftedXs(panels, dx) && p.1 + dy in ShiftedYs(panels, dy)
  {
  }

  /** The window of a non-empty set of panels. */
  ghost function WindowOf(panels: Panels): (w: Window)
    requires panels != map[]
    ensures ShiftedXs(panels, 0) != {} && w.minX == Abs(Least(ShiftedXs(panels, 0)))
    ensures ShiftedYs(panels, 0) != {} && w.minY == Abs(Least(ShiftedYs(panels, 0)))
    ensures ShiftedXs(panels, w.minX) != {} && w.maxX == Greatest(ShiftedXs(panels, w.minX))
    ensures ShiftedYs(panels, w.minY) != {} && w.maxY == Greatest(ShiftedYs(panels, w.minY))
  {
    HasPanel(panels);
    var q :| q in panels;
    Shifted(panels, q, 0, 0);
    var minX := Abs(Least(ShiftedXs(panels, 0)));
    var minY := Abs(Least(ShiftedYs(panels, 0)));
    Shifted(panels, q, minX, minY);
    Window(minX, minY, Greatest(ShiftedXs(panels, minX)), Greatest(ShiftedYs(panels, minY)))
  }

  /** Every panel lies inside the window, so every white panel is drawn. */
  lemma PanelInWindow(panels: Panels, p: Coord)
    requires p in panels
    ensures var w := WindowOf(panels);
      0 <= p.0 + w.minX <= w.maxX && 0 <= p.1 + w.minY <= w.maxY
  {
    var w := WindowOf(panels);
    Shifted(panels, p, 0, 0);
    Shifted(panels, p, w.minX, w.minY);
  }

  /** The character `print_panels` draws for a panel: white is a filled square, black or unpainted a space. */
  function Glyph(panels: Panels, p: Coord): (c: char)
    ensures c == '■' <==> p in panels && panels[p] == White
  {
    if p in panels && panels[p] == White then '■' else ' '
  }

  /** Row `j` of the window: the glyphs of columns 0..=maxX, then a newline. */
  function Row(panels: Panels, w: Window, j: int): (row: string)
    ensures |row| == w.maxX + 2 && row[w.maxX + 1] == '\n'
    ensures forall i :: 0 <= i <= w.maxX ==> row[i] == Glyph(panels, (i - w.minX, j - w.minY))
  {
    seq(w.maxX + 1, i => Glyph(panels, (i - w.minX, j - w.minY))) + "\n"
  }

  /** The first `k` rows drawn, from row `maxY` down. */
  function Rows(panels: Panels, w: Window, k: nat): string
    decreases k
  {
    if k == 0 then [] else Rows(panels, w, k - 1) + Row(panels, w, w.maxY - (k - 1))
  }

  /** What `print_panels` draws: every row of the window, top row first. */
  ghost function Picture(panels: Panels): string
    requires panels != map[]
  {
    var w := WindowOf(panels);
    Rows(panels, w, w.maxY + 1)
  }

  /** `print_panels`, whose `expect`s panic on an empty map. */
  method PrintPanels(panels: Panels) returns (r: Option<string>)
    ensures r.None? <==> panels == map[]
    ensures r.Some? ==> r.value == Picture(panels)
  {
    if panels == map[] {
      return None;
    }
    ghost var w := WindowOf(panels);
    var leastX := LeastOf(ShiftedXs(panels, 0));
    var leastY := LeastOf(ShiftedYs(panels, 0));
    var minX := Abs(leastX);
    var minY := Abs(leastY);
    var maxX := GreatestOf(ShiftedXs(panels, minX));
    var maxY := GreatestOf(ShiftedYs(panels, minY));
    assert w == Window(minX, minY, maxX, maxY);
    var out: string := [];
    var j := maxY;
    while j >= 0
      invariant -1 <= j <= maxY
      invariant out == Rows(panels, w, maxY - j)
      decreases j
    {
      var row: string := [];
      for i := 0 to maxX + 1
        invariant row == seq(i, k => Glyph(panels, (k - minX, j - minY)))
      {
        var c := Glyph(panels, (i - minX, j - minY));
        assert seq(i + 1, k => Glyph(panels, (k - minX, j - minY))) == row + [c];
        row := row + [c];
      }
      out := out + row + "\n";
      assert out == Rows(panels, w, maxY - j + 1);
      j := j - 1;
    }
    return Some(out);
  }

  /** `k` rows are `k` times as long as one. */
  lemma {:induction false} RowsLength(panels: Panels, w: Window, k: nat)
    ensures |Rows(panels, w, k)| == k * (w.maxX + 2)
    decreases k
  {
    if k > 0 {
      RowsLength(panels, w, k - 1);
      assert (k - 1) * (w.maxX + 2) + (w.maxX + 2) == k * (w.maxX + 2);
    }
  }

  /** The character at row `r`, column `c` of `k` rows is that of the row drawn `r` rows below the top. */
  lemma {:induction false} RowsAt(panels: Panels, w: Window, k: nat, r: nat, c: nat)
    requires r < k && c <= w.maxX + 1
    ensures r * (w.maxX + 2) + c < |Rows(panels, w, k)| &&
      Rows(panels, w, k)[r * (w.maxX + 2) + c] == Row(panels, w, w.maxY - r)[c]
    decreases k
  {
    var width := w.maxX + 2;
    RowsLength(panels, w, k - 1);
    assert (k - 1) * width + width == k * width;
    if r < k - 1 {
      RowsAt(panels, w, k - 1, r, c);
      assert r * width + c < (k - 1) * width;
    } else {
      assert r * width + c == (k - 1) * width + c;
    }
  }

  /** The drawing has `maxY + 1` lines of `maxX + 1` characters and a newline each. */
  lemma PictureLength(panels: Panels)
    requires panels != map[]
    ensures var w := WindowOf(panels);
      |Picture(panels)| == (w.maxY + 1) * (w.maxX + 2)
  {
    var w := WindowOf(panels);
    assert Picture(panels) == Rows(panels, w, w.maxY + 1);
    RowsLength(panels, w, w.maxY + 1);
  }

  /**
   * A filled square is drawn exactly where a panel is white: row `r` from
   * the top, column `c` from the left show the panel
   * (c - minX, maxY - r - minY), and each line ends in a newline.
   */
  lemma PictureAt(panels: Panels, r: nat, c: nat)
    requires panels != map[]
    requires r <= WindowOf(panels).maxY && c <= WindowOf(panels).maxX + 1
    ensures var w := WindowOf(panels);
      var at := r * (w.maxX + 2) + c;
      && at < |Picture(panels)|
      && (c == w.maxX + 1 ==> Picture(panels)[at] == '\n')
      && (c <= w.maxX ==>
            (Picture(panels)[at] == '■' <==>
              (c - w.minX, w.maxY - r - w.minY) in panels && panels[(c - w.minX, w.maxY - r - w.minY)] == White))
  {
    var w := WindowOf(panels);
    assert Picture(panels) == Rows(panels, w, w.maxY + 1);
    RowsAt(panels, w, w.maxY + 1, r, c);
  }
}
