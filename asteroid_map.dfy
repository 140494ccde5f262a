/**
 * The asteroid grid parser of 10/src/lib.rs: every '#' of the map becomes
 * a point, with y the line index and x the column in the trimmed line.
 */
module AsteroidMap {
  import opened Text

  /** Grid coordinates, both `usize` in the source. */
  datatype GridPoint = GridPoint(x: nat, y: nat)

  const ASTEROID: char := '#'

  /** `input.split('\n').map(|line| line.trim())`. */
  function Rows(input: string): (rows: seq<string>)
    ensures |rows| == |Split(input, "\n")|
    ensures forall y :: 0 <= y < |rows| ==> rows[y] == Trim(Split(input, "\n")[y])
  {
    var lines := Split(input, "\n");
    seq(|lines|, y requires 0 <= y < |lines| => Trim(lines[y]))
  }

  /** `p` names an asteroid of `rows`. */
  predicate IsAsteroid(rows: seq<string>, p: GridPoint)
  {
    p.y < |rows| && p.x < |rows[p.y]| && rows[p.y][p.x] == ASTEROID
  }

  /** Row-major order: by y, then by x. */
  predicate Before(p: GridPoint, q: GridPoint)
  {
    p.y < q.y || (p.y == q.y && p.x < q.x)
  }

  predicate RowMajor(points: seq<GridPoint>)
  {
    forall i, j :: 0 <= i < j < |points| ==> Before(points[i], points[j])
  }

  /** `points` lists, in row-major order, exactly the asteroids that come before `bound`. */
  ghost predicate ScannedUpTo(rows: seq<string>, points: seq<GridPoint>, bound: GridPoint)
  {
    (forall i :: 0 <= i < |points| ==> IsAsteroid(rows, points[i]) && Before(points[i], bound)) &&
    (forall p :: IsAsteroid(rows, p) && Before(p, bound) ==> p in points) &&
    RowMajor(points)
  }

  /**
   * `parse`: the points are exactly the asteroids of the trimmed rows, in
   * strictly increasing row-major order.
   */
  method Parse(input: string) returns (asteroids: seq<GridPoint>)
    ensures forall i :: 0 <= i < |asteroids| ==> IsAsteroid(Rows(input), asteroids[i])
    ensures forall p :: IsAsteroid(Rows(input), p) ==> p in asteroids
    ensures RowMajor(asteroids)
  {
    var rows := Rows(input);
    asteroids := [];
    for y := 0 to |rows|
      invariant ScannedUpTo(rows, asteroids, GridPoint(0, y))
    {
      var line := rows[y];
      for x := 0 to |line|
        invariant ScannedUpTo(rows, asteroids, GridPoint(x, y))
      {
        if line[x] == ASTEROID {
          Found(rows, asteroids, x, y);
          asteroids := asteroids + [GridPoint(x, y)];
        } else {
          Skipped(rows, asteroids, x, y);
        }
      }
      RowDone(rows, asteroids, y);
    }
    AllRows(rows, asteroids);
  }

  lemma Found(rows: seq<string>, points: seq<GridPoint>, x: nat, y: nat)
    requires y < |rows| && x < |rows[y]| && rows[y][x] == ASTEROID
    requires ScannedUpTo(rows, points, GridPoint(x, y))
    ensures ScannedUpTo(rows, points + [GridPoint(x, y)], GridPoint(x + 1, y))
  {
    var next := points + [GridPoint(x, y)];
    forall p | IsAsteroid(rows, p) && Before(p, GridPoint(x + 1, y)) ensures p in next {
      if p != GridPoint(x, y) {
        assert Before(p, GridPoint(x, y));
      }
    }
  }

  lemma Skipped(rows: seq<string>, points: seq<GridPoint>, x: nat, y: nat)
    requires y < |rows| && x < |rows[y]| && rows[y][x] != ASTEROID
    requires ScannedUpTo(rows, points, GridPoint(x, y))
    ensures ScannedUpTo(rows, points, GridPoint(x + 1, y))
  {
    forall p | IsAsteroid(rows, p) && Before(p, GridPoint(x + 1, y)) ensures p in points {
      assert p != GridPoint(x, y);
      assert Before(p, GridPoint(x, y));
    }
  }

  lemma RowDone(rows: seq<string>, points: seq<GridPoint>, y: nat)
    requires y < |rows|
    requires ScannedUpTo(rows, points, GridPoint(|rows[y]|, y))
    ensures ScannedUpTo(rows, points, GridPoint(0, y + 1))
  {
    forall p | IsAsteroid(rows, p) && Before(p, GridPoint(0, y + 1)) ensures p in points {
      assert Before(p, GridPoint(|rows[y]|, y));
    }
  }

  lemma AllRows(rows: seq<string>, points: seq<GridPoint>)
    requires ScannedUpTo(rows, points, GridPoint(0, |rows|))
    ensures forall i :: 0 <= i < |points| ==> IsAsteroid(rows, points[i])
    ensures forall p :: IsAsteroid(rows, p) ==> p in points
    ensures RowMajor(points)
  {
    forall p | IsAsteroid(rows, p) ensures p in points {
      assert Before(p, GridPoint(0, |rows|));
    }
  }

  /** Row-major order is strict, so no asteroid is listed twice. */
  lemma RowMajorDistinct(points: seq<GridPoint>)
    requires RowMajor(points)
    ensures forall i, j :: 0 <= i < j < |points| ==> points[i] != points[j]
  {
  }

  /** The map of the `verify_parse` test, trimmed, and the asteroids it lists. */
  const EXAMPLE_ROWS: seq<string> := [".#..#", ".....", "#####", "....#", "...##"]
  const EXAMPLE_POINTS: seq<GridPoint> := [
    GridPoint(1, 0), GridPoint(4, 0),
    GridPoint(0, 2), GridPoint(1, 2), GridPoint(2, 2), GridPoint(3, 2), GridPoint(4, 2),
    GridPoint(4, 3),
    GridPoint(3, 4), GridPoint(4, 4)]

  /**
   * The test `verify_parse`: whatever `parse` returns for the map, whose
   * lines after the first are indented, is the test's list of asteroids.
   */
  lemma VerifyParse(input: string, pad: string, points: seq<GridPoint>)
    requires forall i :: 0 <= i < |pad| ==> pad[i] == ' '
    requires input == Join(ExampleLines(pad), "\n")
    requires forall i :: 0 <= i < |points| ==> IsAsteroid(Rows(input), points[i])
    requires forall p :: IsAsteroid(Rows(input), p) ==> p in points
    requires RowMajor(points)
    ensures points == EXAMPLE_POINTS
  {
    ExampleRows(input, pad);
    ExampleAsteroids();
    RowMajorUnique(points, EXAMPLE_POINTS);
  }

  /** The lines of the test's map, indented by `pad` after the first. */
  function ExampleLines(pad: string): seq<string> {
    [".#..#", pad + ".....", pad + "#####", pad + "....#", pad + "...##"]
  }

  /** The lines of the test's map, split at newlines and trimmed. */
  lemma ExampleRows(input: string, pad: string)
    requires forall i :: 0 <= i < |pad| ==> pad[i] == ' '
    requires input == Join(ExampleLines(pad), "\n")
    ensures Rows(input) == EXAMPLE_ROWS
  {
    ExampleSplit(pad);
    ExampleTrims(pad);
    assert Split(input, "\n") == ExampleLines(pad);
    assert forall y :: 0 <= y < 5 ==> Rows(input)[y] == EXAMPLE_ROWS[y];
  }

  /** Splitting the joined lines at newlines gives the lines back. */
  lemma ExampleSplit(pad: string)
    requires forall i :: 0 <= i < |pad| ==> pad[i] == ' '
    ensures Split(Join(ExampleLines(pad), "\n"), "\n") == ExampleLines(pad)
  {
    var lines := ExampleLines(pad);
    forall i, j | 0 <= i < |lines| && 0 <= j < |lines[i]| ensures lines[i][j] != '\n' {
      if i > 0 && j < |pad| {
        assert lines[i][j] == pad[j];
      }
    }
    SplitJoined(lines, '\n');
  }

  /** Trimming each line drops the indentation. */
  lemma ExampleTrims(pad: string)
    requires forall i :: 0 <= i < |pad| ==> pad[i] == ' '
    ensures forall y :: 0 <= y < 5 ==> Trim(ExampleLines(pad)[y]) == EXAMPLE_ROWS[y]
  {
    var lines := ExampleLines(pad);
    forall y | 0 <= y < 5 ensures Trim(lines[y]) == EXAMPLE_ROWS[y] {
      var row := EXAMPLE_ROWS[y];
      assert row[0] in ".#" && row[|row| - 1] in ".#";
      if y == 0 {
        TrimUnchanged(row);
      } else {
        assert lines[y] == pad + row;
        TrimIndentedLine(pad, row);
      }
    }
  }

  /** A line of the map indented by spaces trims to the line. */
  lemma TrimIndentedLine(pad: string, row: string)
    requires forall i :: 0 <= i < |pad| ==> pad[i] == ' '
    requires row != [] && row[0] in ".#" && row[|row| - 1] in ".#"
    ensures Trim(pad + row) == row
  {
    TrimIndented(pad, row);
  }

  /** The asteroids of the test's rows are exactly the listed points. */
  lemma ExampleAsteroids()
    ensures forall p :: IsAsteroid(EXAMPLE_ROWS, p) <==> p in EXAMPLE_POINTS
    ensures RowMajor(EXAMPLE_POINTS)
  {
    forall p | IsAsteroid(EXAMPLE_ROWS, p) ensures p in EXAMPLE_POINTS {
      var row := EXAMPLE_ROWS[p.y];
      assert p.x < 5 && row[p.x] == ASTEROID;
    }
  }

  /** The head of a row-major list comes before every later point. */
  lemma FirstIsLeast(a: seq<GridPoint>, k: nat)
    requires RowMajor(a) && k < |a|
    ensures k == 0 || Before(a[0], a[k])
  {
  }

  /** Two row-major lists of the same points are the same list. */
  lemma {:induction false} RowMajorUnique(a: seq<GridPoint>, b: seq<GridPoint>)
    requires RowMajor(a) && RowMajor(b)
    requires forall p :: p in a <==> p in b
    ensures a == b
    decreases |a|
  {
    if a != [] {
      assert a[0] in a;
    }
    if b != [] {
      assert b[0] in b;
    }
    if a != [] {
      var i :| 0 <= i < |a| && a[i] == b[0];
      var j :| 0 <= j < |b| && b[j] == a[0];
      FirstIsLeast(a, i);
      FirstIsLeast(b, j);
      assert a[0] == b[0];
      assert a == [a[0]] + a[1..] && b == [b[0]] + b[1..];
      forall p ensures p in a[1..] <==> p in b[1..] {
        if p in a[1..] {
          var k :| 0 <= k < |a| - 1 && a[1..][k] == p;
          assert a[k + 1] == p && Before(a[0], a[k + 1]);
          assert p in b && p != b[0];
        }
        if p in b[1..] {
          var k :| 0 <= k < |b| - 1 && b[1..][k] == p;
          assert b[k + 1] == p && Before(b[0], b[k + 1]);
          assert p in a && p != a[0];
        }
      }
      RowMajorUnique(a[1..], b[1..]);
    }
  }
}
