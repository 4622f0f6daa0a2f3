/** _polygon_area_xy over ideal reals: the shoelace sum of a ring that may or may not repeat its first point. */
module Polygon {
  datatype Point = Point(x: real, y: real)

  function Cross(a: Point, b: Point): real {
    a.x * b.y - b.x * a.y
  }

  /** The sum over neighbouring points. */
  function PathSum(ps: seq<Point>): real {
    if |ps| <= 1 then 0.0 else Cross(ps[0], ps[1]) + PathSum(ps[1..])
  }

  function HalfAbs(x: real): real {
    (if x < 0.0 then -x else x) / 2.0
  }

  function Closed(ps: seq<Point>): seq<Point>
    requires ps != []
  {
    if ps[0] != ps[|ps| - 1] then ps + [ps[0]] else ps
  }

  function Area(ps: seq<Point>): real {
    if |ps| < 3 then 0.0 else HalfAbs(PathSum(Closed(ps)))
  }

  /** The sum around the ring. */
  function RingSum(ps: seq<Point>): real
    requires ps != []
  {
    PathSum(ps) + Cross(ps[|ps| - 1], ps[0])
  }

  lemma {:induction false} PathAppend(a: seq<Point>, p: Point, b: seq<Point>)
    ensures PathSum(a + [p] + b) == PathSum(a + [p]) + PathSum([p] + b)
  {
    if a == [] {
      assert a + [p] + b == [p] + b && a + [p] == [p];
    } else {
      assert (a + [p] + b)[1..] == a[1..] + [p] + b && (a + [p])[1..] == a[1..] + [p];
      assert (a + [p] + b)[1] == (a + [p])[1];
      PathAppend(a[1..], p, b);
    }
  }

  lemma {:induction false} PathSnoc(ps: seq<Point>, q: Point)
    requires ps != []
    ensures PathSum(ps + [q]) == PathSum(ps) + Cross(ps[|ps| - 1], q)
  {
    var init, last := ps[..|ps| - 1], ps[|ps| - 1];
    assert ps == init + [last];
    PathAppend(init, last, [q]);
    assert ([last] + [q])[1..] == [q];
  }

  /** Closing the ring, or finding it closed, comes to the same: for every ring the area is half the sum around
      it. */
  lemma AreaIsRingSum(ps: seq<Point>)
    requires |ps| >= 3
    ensures Area(ps) == HalfAbs(RingSum(ps))
  {
    if ps[0] != ps[|ps| - 1] {
      PathSnoc(ps, ps[0]);
    } else {
      CrossSelf(ps[0]);
    }
  }

  lemma CrossSelf(p: Point)
    ensures Cross(p, p) == 0.0
  {
  }

  /** Rings of the same sum, up to its sign, have the same area. */
  lemma SameArea(ps: seq<Point>, qs: seq<Point>)
    requires |ps| == |qs| && (|ps| >= 3 ==> RingSum(qs) == RingSum(ps) || RingSum(qs) == -RingSum(ps))
    ensures Area(qs) == Area(ps)
  {
    if |ps| >= 3 {
      AreaIsRingSum(ps);
      AreaIsRingSum(qs);
    }
  }

  // ----- moving the ring

  function MovedPoint(p: Point, dx: real, dy: real): Point {
    Point(p.x + dx, p.y + dy)
  }

  function Moved(ps: seq<Point>, dx: real, dy: real): (qs: seq<Point>)
    ensures |qs| == |ps|
  {
    seq(|ps|, i requires 0 <= i < |ps| => MovedPoint(ps[i], dx, dy))
  }

  /** What a move adds to the sum from one point to another. */
  function Drift(a: Point, b: Point, dx: real, dy: real): real {
    dx * (b.y - a.y) - dy * (b.x - a.x)
  }

  lemma CrossMoves(a: Point, b: Point, dx: real, dy: real)
    ensures Cross(MovedPoint(a, dx, dy), MovedPoint(b, dx, dy)) == Cross(a, b) + Drift(a, b, dx, dy)
  {
    assert (a.x + dx) * (b.y + dy) == a.x * b.y + a.x * dy + dx * b.y + dx * dy;
    assert (b.x + dx) * (a.y + dy) == b.x * a.y + b.x * dy + dx * a.y + dx * dy;
  }

  lemma DriftAdds(a: Point, b: Point, c: Point, dx: real, dy: real)
    ensures Drift(a, b, dx, dy) + Drift(b, c, dx, dy) == Drift(a, c, dx, dy)
  {
    Telescope(dx, a.y, b.y, c.y);
    Telescope(dy, a.x, b.x, c.x);
  }

  lemma Telescope(d: real, a: real, b: real, c: real)
    ensures d * (b - a) + d * (c - b) == d * (c - a)
  {
  }

  lemma {:induction false} PathMoves(ps: seq<Point>, dx: real, dy: real)
    requires ps != []
    ensures PathSum(Moved(ps, dx, dy)) == PathSum(ps) + Drift(ps[0], ps[|ps| - 1], dx, dy)
  {
    if |ps| > 1 {
      assert Moved(ps, dx, dy)[1..] == Moved(ps[1..], dx, dy);
      PathMoves(ps[1..], dx, dy);
      CrossMoves(ps[0], ps[1], dx, dy);
      DriftAdds(ps[0], ps[1], ps[|ps| - 1], dx, dy);
    }
  }

  lemma RingMoves(ps: seq<Point>, dx: real, dy: real)
    requires ps != []
    ensures RingSum(Moved(ps, dx, dy)) == RingSum(ps)
  {
    var first, last := ps[0], ps[|ps| - 1];
    PathMoves(ps, dx, dy);
    CrossMoves(last, first, dx, dy);
    DriftAdds(first, last, first, dx, dy);
    assert Drift(first, first, dx, dy) == 0.0;
  }

  lemma AreaMoves(ps: seq<Point>, dx: real, dy: real)
    ensures Area(Moved(ps, dx, dy)) == Area(ps)
  {
    if ps != [] {
      RingMoves(ps, dx, dy);
    }
    SameArea(ps, Moved(ps, dx, dy));
  }

  // ----- walking the ring the other way, or from another point

  function Reversed(ps: seq<Point>): (qs: seq<Point>)
    ensures |qs| == |ps|
    ensures ps != [] ==> qs[0] == ps[|ps| - 1] && qs[|qs| - 1] == ps[0]
  {
    if ps == [] then [] else Reversed(ps[1..]) + [ps[0]]
  }

  lemma {:induction false} PathReverses(ps: seq<Point>)
    ensures PathSum(Reversed(ps)) == -PathSum(ps)
  {
    if |ps| > 1 {
      PathReverses(ps[1..]);
      PathSnoc(Reversed(ps[1..]), ps[0]);
    } else if |ps| == 1 {
      assert Reversed(ps[1..]) == [];
    }
  }

  lemma CrossSwaps(a: Point, b: Point)
    ensures Cross(b, a) == -Cross(a, b)
  {
  }

  lemma {:induction false} RingReverses(ps: seq<Point>)
    requires ps != []
    ensures RingSum(Reversed(ps)) == -RingSum(ps)
  {
    PathReverses(ps);
    CrossSwaps(ps[|ps| - 1], ps[0]);
  }

  lemma {:induction false} AreaReverses(ps: seq<Point>)
    ensures Area(Reversed(ps)) == Area(ps)
  {
    if ps != [] {
      RingReverses(ps);
    }
    SameArea(ps, Reversed(ps));
  }

  lemma {:induction false} PathJoin(a: seq<Point>, b: seq<Point>)
    requires a != [] && b != []
    ensures PathSum(a + b) == PathSum(a) + Cross(a[|a| - 1], b[0]) + PathSum(b)
  {
    var init, last := a[..|a| - 1], a[|a| - 1];
    assert a == init + [last] && a + b == init + [last] + b;
    PathAppend(init, last, b);
    assert ([last] + b)[1..] == b;
  }

  lemma RingRotates(a: seq<Point>, b: seq<Point>)
    requires a != [] && b != []
    ensures RingSum(b + a) == RingSum(a + b)
  {
    PathJoin(a, b);
    PathJoin(b, a);
  }

  lemma AreaRotates(ps: seq<Point>, k: nat)
    requires k <= |ps|
    ensures Area(ps[k..] + ps[..k]) == Area(ps)
  {
    var a, b := ps[..k], ps[k..];
    assert a + b == ps;
    if a == [] || b == [] {
      assert b + a == ps;
    } else {
      RingRotates(a, b);
      SameArea(ps, b + a);
    }
  }

  // ----- scaling

  function ScaledPoint(p: Point, s: real): Point {
    Point(s * p.x, s * p.y)
  }

  function Scaled(ps: seq<Point>, s: real): (qs: seq<Point>)
    ensures |qs| == |ps|
  {
    seq(|ps|, i requires 0 <= i < |ps| => ScaledPoint(ps[i], s))
  }

  function Square(s: real): (k: real)
    ensures k >= 0.0
  {
    s * s
  }

  lemma CrossScales(a: Point, b: Point, s: real)
    ensures Cross(ScaledPoint(a, s), ScaledPoint(b, s)) == Square(s) * Cross(a, b)
  {
    assert s * a.x * (s * b.y) == s * s * (a.x * b.y);
    assert s * b.x * (s * a.y) == s * s * (b.x * a.y);
    Distribute(s * s, a.x * b.y, b.x * a.y);
  }

  lemma Distribute(k: real, x: real, y: real)
    ensures k * (x - y) == k * x - k * y && k * (x + y) == k * x + k * y
  {
  }

  lemma {:induction false} PathScales(ps: seq<Point>, s: real)
    ensures PathSum(Scaled(ps, s)) == Square(s) * PathSum(ps)
  {
    if |ps| > 1 {
      assert Scaled(ps, s)[1..] == Scaled(ps[1..], s);
      PathScales(ps[1..], s);
      CrossScales(ps[0], ps[1], s);
      Distribute(Square(s), Cross(ps[0], ps[1]), PathSum(ps[1..]));
    }
  }

  lemma RingScales(ps: seq<Point>, s: real)
    requires ps != []
    ensures RingSum(Scaled(ps, s)) == Square(s) * RingSum(ps)
  {
    PathScales(ps, s);
    CrossScales(ps[|ps| - 1], ps[0], s);
    Distribute(Square(s), PathSum(ps), Cross(ps[|ps| - 1], ps[0]));
  }

  lemma HalfAbsTimes(k: real, x: real)
    requires k >= 0.0
    ensures HalfAbs(k * x) == k * HalfAbs(x)
  {
    if x < 0.0 {
      assert k * x <= 0.0 && k * (-x / 2.0) == -(k * x) / 2.0;
    } else {
      assert k * x >= 0.0 && k * (x / 2.0) == k * x / 2.0;
    }
  }

  lemma RingTimes(ps: seq<Point>, qs: seq<Point>, k: real)
    requires |ps| == |qs| >= 3 && k >= 0.0 && RingSum(qs) == k * RingSum(ps)
    ensures Area(qs) == k * Area(ps)
  {
    AreaIsRingSum(ps);
    AreaIsRingSum(qs);
    HalfAbsTimes(k, RingSum(ps));
  }

  /** Measuring and then scaling by the square is the same as scaling and then measuring. */
  lemma AreaScales(ps: seq<Point>, s: real)
    ensures Area(Scaled(ps, s)) == Square(s) * Area(ps)
  {
    if |ps| >= 3 {
      RingScales(ps, s);
      RingTimes(ps, Scaled(ps, s), Square(s));
    }
  }

  // ----- cutting

  lemma {:induction false} PathSplits(ps: seq<Point>, k: nat)
    requires k < |ps|
    ensures PathSum(ps) == PathSum(ps[..k + 1]) + PathSum(ps[k..])
  {
    if k == 0 {
      assert ps[0..] == ps;
    } else {
      PathSplits(ps[1..], k - 1);
      assert ps[..k + 1][1..] == ps[1..][..k] && ps[1..][k - 1..] == ps[k..];
    }
  }

  /** A diagonal cuts a ring into two rings whose sums add up to that of the ring. */
  lemma DiagonalCuts(ps: seq<Point>, k: nat)
    requires 0 < k < |ps|
    ensures RingSum(ps) == RingSum(ps[..k + 1]) + RingSum([ps[0]] + ps[k..])
  {
    PathSplits(ps, k);
    PathJoin([ps[0]], ps[k..]);
    CrossSwaps(ps[0], ps[k]);
  }

  // ----- known areas

  function Rectangle(p: Point, w: real, h: real): seq<Point> {
    [p, Point(p.x + w, p.y), Point(p.x + w, p.y + h), Point(p.x, p.y + h)]
  }

  /** a is the magnitude of x. */
  predicate IsMagnitude(a: real, x: real) {
    a >= 0.0 && (a == x || a == -x)
  }

  lemma PathOfThree(a: Point, b: Point, c: Point)
    ensures PathSum([a, b, c]) == Cross(a, b) + Cross(b, c)
  {
    PathSnoc([a], b);
    PathSnoc([a, b], c);
    assert [a] + [b] == [a, b] && [a, b] + [c] == [a, b, c];
  }

  lemma PathOfFour(a: Point, b: Point, c: Point, d: Point)
    ensures PathSum([a, b, c, d]) == Cross(a, b) + Cross(b, c) + Cross(c, d)
  {
    PathOfThree(a, b, c);
    PathSnoc([a, b, c], d);
    assert [a, b, c] + [d] == [a, b, c, d];
  }

  lemma HalfOfTwice(x: real)
    ensures IsMagnitude(HalfAbs(2.0 * x), x)
  {
  }

  lemma HalfOf(x: real)
    ensures IsMagnitude(2.0 * HalfAbs(x), x)
  {
  }

  lemma RectangleSum(x: real, y: real, w: real, h: real)
    ensures RingSum(Rectangle(Point(x, y), w, h)) == 2.0 * (w * h)
  {
    PathOfFour(Point(x, y), Point(x + w, y), Point(x + w, y + h), Point(x, y + h));
    assert (x + w) * (y + h) == x * y + x * h + w * y + w * h;
    assert (x + w) * y == x * y + w * y && x * (y + h) == x * y + x * h;
    assert Cross(Point(x, y), Point(x + w, y)) == -(w * y);
    assert Cross(Point(x + w, y), Point(x + w, y + h)) == x * h + w * h;
    assert Cross(Point(x + w, y + h), Point(x, y + h)) == w * y + w * h;
    assert Cross(Point(x, y + h), Point(x, y)) == -(x * h);
  }

  /** The area of a rectangle along the axes is the product of its sides, in whichever directions they run. */
  lemma {:induction false} RectangleArea(p: Point, w: real, h: real)
    ensures IsMagnitude(Area(Rectangle(p, w, h)), w * h)
  {
    AreaIsRingSum(Rectangle(p, w, h));
    RectangleSum(p.x, p.y, w, h);
    HalfOfTwice(w * h);
  }

  /** Twice the area of a triangle is the magnitude of the cross product of two of its sides. */
  lemma {:induction false} TriangleArea(a: Point, b: Point, c: Point)
    ensures IsMagnitude(2.0 * Area([a, b, c]), (b.x - a.x) * (c.y - a.y) - (c.x - a.x) * (b.y - a.y))
  {
    AreaIsRingSum([a, b, c]);
    TriangleSum(a, b, c);
    HalfOf(RingSum([a, b, c]));
  }

  lemma TriangleSum(a: Point, b: Point, c: Point)
    ensures RingSum([a, b, c]) == (b.x - a.x) * (c.y - a.y) - (c.x - a.x) * (b.y - a.y)
  {
    PathOfThree(a, b, c);
    assert (b.x - a.x) * (c.y - a.y) == b.x * c.y - b.x * a.y - a.x * c.y + a.x * a.y;
    assert (c.x - a.x) * (b.y - a.y) == c.x * b.y - c.x * a.y - a.x * b.y + a.x * a.y;
  }
}
