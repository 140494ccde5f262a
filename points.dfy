/**
 * Integer point geometry of 10/src/points.rs: collinearity by a
 * determinant and "strictly between" on a line.
 */
module Points {

  datatype Point = Point(x: int, y: int)

  /** The vector from `origin` to `p`. */
  function Sub(p: Point, origin: Point): Point
  {
    Point(p.x - origin.x, p.y - origin.y)
  }

  /** The z component of the cross product u × v: zero iff u and v are parallel. */
  function Cross(u: Point, v: Point): int
  {
    u.x * v.y - v.x * u.y
  }

  function Dot(u: Point, v: Point): int
  {
    u.x * v.x + u.y * v.y
  }

  /**
   * `points_collinear`: the determinant of the rows (x, y, 1) of the three
   * points is zero, which is the cross product (b − a) × (c − a) being zero.
   */
  function PointsCollinear(a: Point, b: Point, c: Point): (r: bool)
    ensures r <==> Cross(Sub(b, a), Sub(c, a)) == 0
  {
    DetIsCross(a, b, c);
    0 == Det(a, b, c)
  }

  /** The determinant of the 3×3 matrix with rows (x, y, 1), expanded as in the source. */
  function Det(a: Point, b: Point, c: Point): int
  {
    a.x * (b.y - c.y) - a.y * (b.x - c.x) + b.x * c.y - c.x * b.y
  }

  lemma DetIsCross(a: Point, b: Point, c: Point)
    ensures Det(a, b, c) == Cross(Sub(b, a), Sub(c, a))
  {
    assert (b.x - a.x) * (c.y - a.y) == b.x * c.y - b.x * a.y - a.x * c.y + a.x * a.y;
    assert (c.x - a.x) * (b.y - a.y) == c.x * b.y - c.x * a.y - a.x * b.y + a.x * a.y;
  }

  /** `Point::collinear`. */
  function Collinear(p: Point, b: Point, c: Point): (r: bool)
    ensures r <==> Cross(Sub(b, p), Sub(c, p)) == 0
  {
    PointsCollinear(p, b, c)
  }

  /**
   * `Point::between`: `p` lies strictly between `b` and `c` along x, or along
   * y when all three share their x, and the three are collinear.
   */
  function Between(p: Point, b: Point, c: Point): (r: bool)
    ensures r ==> p != b && p != c
  {
    var leftToRightBetween :=
      if p.x == b.x && p.x == c.x then
        var before := if b.y < c.y then b else c;
        var after := if b.y < c.y then c else b;
        before.y < p.y && p.y < after.y
      else
        var before := if b.x < c.x then b else c;
        var after := if b.x < c.x then c else b;
        before.x < p.x && p.x < after.x;
    leftToRightBetween && Collinear(p, b, c)
  }

  /** `Point::from_cords`: the grid coordinates as a point. */
  function FromCords(x: nat, y: nat): (r: Point)
    ensures r.x == x && r.y == y
  {
    Point(x, y)
  }

  /** `Point::relative_to`: moving `origin` back by the result gives the point again. */
  function RelativeTo(p: Point, origin: Point): (r: Point)
    ensures Point(r.x + origin.x, r.y + origin.y) == p
    ensures p == origin <==> r == Point(0, 0)
  {
    Point(p.x - origin.x, p.y - origin.y)
  }

  /** Betweenness does not depend on the order of the two end points. */
  lemma BetweenSymmetric(p: Point, b: Point, c: Point)
    ensures Between(p, b, c) == Between(p, c, b)
  {
    assert Cross(Sub(c, p), Sub(b, p)) == -Cross(Sub(b, p), Sub(c, p));
  }

  /** When u × v = 0, the product of the two terms of u · v is a square. */
  lemma ParallelProducts(u: Point, v: Point)
    requires Cross(u, v) == 0
    ensures (u.x * v.x) * (u.y * v.y) == (u.x * v.y) * (u.x * v.y)
  {
    assert u.x * v.y == v.x * u.y;
    calc {
      (u.x * v.x) * (u.y * v.y);
      (u.x * v.y) * (v.x * u.y);
      (u.x * v.y) * (u.x * v.y);
    }
  }

  /**
   * Geometric meaning of `between`: `p` is on the line through `b` and `c`
   * and the vectors to the two end points point in opposite directions,
   * that is, `p` is strictly inside the segment from `b` to `c`.
   */
  lemma BetweenIsInsideSegment(p: Point, b: Point, c: Point)
    ensures Between(p, b, c) <==> Cross(Sub(b, p), Sub(c, p)) == 0 && Dot(Sub(b, p), Sub(c, p)) < 0
  {
    var u, v := Sub(b, p), Sub(c, p);
    if Cross(u, v) == 0 {
      ParallelProducts(u, v);
      var sq := (u.x * v.y) * (u.x * v.y);
      assert sq >= 0;
      if u.x == 0 && v.x == 0 {
        assert Dot(u, v) == u.y * v.y;
      } else if u.x * v.x < 0 {
        assert u.y * v.y <= 0;
      } else if u.x * v.x > 0 {
        assert u.y * v.y >= 0;
      } else if u.x == 0 {
        assert v.x * u.y == 0;
        assert u.y == 0;
      } else {
        assert v.x == 0;
        assert u.x * v.y == 0;
        assert v.y == 0;
      }
    }
  }

  /** `between` is false at either end point, because its inequalities are strict. */
  lemma NotBetweenAtEnds(b: Point, c: Point)
    ensures !Between(b, b, c) && !Between(c, b, c)
  {
  }

  /** Collinearity is unchanged when all three points are taken relative to one origin. */
  lemma CollinearTranslated(a: Point, b: Point, c: Point, origin: Point)
    ensures PointsCollinear(RelativeTo(a, origin), RelativeTo(b, origin), RelativeTo(c, origin)) == PointsCollinear(a, b, c)
  {
    assert Sub(RelativeTo(b, origin), RelativeTo(a, origin)) == Sub(b, a);
    assert Sub(RelativeTo(c, origin), RelativeTo(a, origin)) == Sub(c, a);
  }

  /** Any three points a, a + s·d and a + t·d on one line through `a` are collinear. */
  lemma CollinearAlong(a: Point, d: Point, s: int, t: int)
    ensures PointsCollinear(a, Point(a.x + s * d.x, a.y + s * d.y), Point(a.x + t * d.x, a.y + t * d.y))
  {
    var b, c := Point(a.x + s * d.x, a.y + s * d.y), Point(a.x + t * d.x, a.y + t * d.y);
    assert Sub(b, a) == Point(s * d.x, s * d.y);
    assert Sub(c, a) == Point(t * d.x, t * d.y);
    assert (s * d.x) * (t * d.y) == (t * d.x) * (s * d.y);
  }

  /** The lines of the test `collinear_points`. */
  lemma CollinearExamples()
    ensures PointsCollinear(Point(0, 0), Point(1, 0), Point(2, 0))
    ensures PointsCollinear(Point(1, 0), Point(1, 1), Point(1, 2))
    ensures PointsCollinear(Point(0, 0), Point(1, 1), Point(2, 2))
  {
    CollinearAlong(Point(0, 0), Point(1, 0), 1, 2);
    CollinearAlong(Point(1, 0), Point(0, 1), 1, 2);
    CollinearAlong(Point(0, 0), Point(1, 1), 1, 2);
  }

  /** The triangles of the test `non_collinear_points`. */
  lemma NonCollinearExamples()
    ensures !PointsCollinear(Point(0, 0), Point(2, 0), Point(2, 2))
    ensures !PointsCollinear(Point(1, 0), Point(2, 2), Point(1, 2))
    ensures !PointsCollinear(Point(0, 0), Point(1, 1), Point(1, 2))
  {
  }
}
