/**
 * The stored shape records of the drawing program and the geometry that
 * finalizeShape and completePolygon give a new shape.
 */
module Shapes {
  import opened Wrappers
  import opened Geometry

  /** The selected primitive, the value of the "shape" selector. */
  datatype Kind = Line | Rectangle | Triangle | Polygon | Circle

  /**
   * One entry of the `shapes` list. A circle committed with a centre keeps
   * it in `center` and its radius in `radius`; every other record keeps its
   * corners in `points`. The source's records carry only the properties
   * they use: the circle record has no `points`, the others no `center` or
   * `radius`. Here every record has all three fields, and the absent ones
   * hold placeholders (empty `points`, no centre, radius 0) that nothing
   * reads. `transform` is set to the identity at creation and never read
   * again.
   */
  datatype Shape = Shape(kind: Kind, points: seq<Point>, center: Option<Point>, radius: real, transform: Mat3)

  function Abs(r: real): real
  {
    if r < 0.0 then -r else r
  }

  /** The derived third corner of a triangle dragged from `start` to `release`. */
  function ThirdVertex(start: Point, release: Point): (c: Point)
    ensures c.x - start.x == release.x - c.x
    ensures c.y <= start.y && start.y - c.y == Abs(release.y - start.y)
  {
    Point((start.x + release.x) / 2.0, start.y - Abs(release.y - start.y))
  }

  /**
   * `r` is what `Math.sqrt(dx * dx + dy * dy)` stands for over the reals:
   * the non-negative root of the squared distance.
   */
  predicate IsHypot(r: real, dx: real, dy: real)
  {
    r >= 0.0 && r * r == dx * dx + dy * dy
  }

  /** The radius condition fixes the radius: at most one real meets it. */
  lemma HypotUnique(r1: real, r2: real, dx: real, dy: real)
    requires IsHypot(r1, dx, dy) && IsHypot(r2, dx, dy)
    ensures r1 == r2
  {
    if r1 < r2 {
      SquareGrows(r1, r2);
    } else if r2 < r1 {
      SquareGrows(r2, r1);
    }
  }

  /** Squaring is strictly increasing on the non-negative reals. */
  lemma SquareGrows(a: real, b: real)
    requires 0.0 <= a < b
    ensures a * a < b * b
  {
    MulStrict(b, a, b);
    if a > 0.0 {
      MulStrict(a, a, b);
      assert a * b == b * a;
    } else {
      calc {
        a * a;
        0.0 * 0.0;
      <
        { MulStrict(b, 0.0, b); }
        b * b;
      }
    }
  }

  lemma MulStrict(c: real, x: real, y: real)
    requires c > 0.0 && x < y
    ensures c * x < c * y
  {
    assert c * y - c * x == c * (y - x);
  }

  lemma SquareNonNegative(a: real)
    ensures a * a >= 0.0 && (a * a == 0.0 <==> a == 0.0)
  {
    if a < 0.0 {
      SquareGrows(0.0, -a);
    } else if a > 0.0 {
      SquareGrows(0.0, a);
    }
  }

  /** A circle has radius 0 exactly when the release point is its centre. */
  lemma HypotZero(r: real, dx: real, dy: real)
    requires IsHypot(r, dx, dy)
    ensures r == 0.0 <==> dx == 0.0 && dy == 0.0
  {
    SquareNonNegative(r);
    SquareNonNegative(dx);
    SquareNonNegative(dy);
  }

  /** Centre (5, 5) and release (9, 5) give radius exactly 4. */
  lemma RadiusExample(r: real)
    requires IsHypot(r, 9.0 - 5.0, 5.0 - 5.0)
    ensures r == 4.0
  {
    HypotUnique(r, 4.0, 4.0, 0.0);
  }

  /** Anchor (0, 0) and release (10, 20) give the third vertex (5, -20). */
  lemma TriangleExample()
    ensures ThirdVertex(Point(0.0, 0.0), Point(10.0, 20.0)) == Point(5.0, -20.0)
  {
  }

  /**
   * The shape a mouse-up commits for a non-polygon kind: a circle with its
   * centre and radius when the kind is "circle" and a centre was recorded;
   * otherwise, for every kind including "circle", the generic record with
   * `[start, release]`, and for a triangle the derived third vertex as well.
   */
  function ReleasedShape(kind: Kind, start: Option<Point>, center: Option<Point>, release: Point, hypot: real): Shape
    requires kind != Polygon
    requires (kind == Circle && center.Some?) || start.Some?
  {
    if kind == Circle && center.Some? then
      Shape(Circle, [], center, hypot, Identity())
    else
      var s := start.value;
      Shape(kind, if kind == Triangle then [s, release, ThirdVertex(s, release)] else [s, release],
            None, 0.0, Identity())
  }

  /** The polygon completePolygon commits from the pending vertices. */
  function PolygonShape(vertices: seq<Point>): Shape
  {
    Shape(Polygon, vertices, None, 0.0, Identity())
  }

  /** A centre-less circle: the record the fall-through branch commits for "circle". */
  predicate Centreless(s: Shape)
  {
    s.kind == Circle && s.center.None?
  }

  /**
   * The shapes the session can hold: each kind has the number of points
   * its creating branch gives it, a circle has either a centre and a
   * non-negative radius or the two generic points, and `transform` is
   * still the identity.
   */
  predicate Committed(s: Shape)
  {
    s.transform == Identity() &&
    (s.kind == Circle && s.center.Some? ==> s.points == [] && s.radius >= 0.0) &&
    (s.kind != Circle || s.center.None? ==> s.center.None? && s.radius == 0.0) &&
    match s.kind
    case Line => |s.points| == 2
    case Rectangle => |s.points| == 2
    case Triangle => |s.points| == 3
    case Polygon => |s.points| >= 3
    case Circle => s.center.Some? || |s.points| == 2
  }

  /** What finalizeShape stores, kind by kind; every released shape is a committed one. */
  lemma ReleasedShapeGeometry(kind: Kind, start: Option<Point>, center: Option<Point>, release: Point, hypot: real)
    requires kind != Polygon
    requires (kind == Circle && center.Some?) || start.Some?
    requires kind == Circle && center.Some? ==>
               IsHypot(hypot, release.x - center.value.x, release.y - center.value.y)
    ensures var s := ReleasedShape(kind, start, center, release, hypot);
      Committed(s) && s.kind == kind &&
      (kind == Circle && center.Some? ==>
         s.center == center && s.radius * s.radius == (release.x - center.value.x) * (release.x - center.value.x)
                                                   + (release.y - center.value.y) * (release.y - center.value.y)) &&
      (kind == Line || kind == Rectangle || Centreless(s) ==> s.points == [start.value, release]) &&
      (kind == Triangle ==> s.points == [start.value, release, ThirdVertex(start.value, release)])
  {
  }

  /** A committed polygon has the pending vertices in click order. */
  lemma PolygonShapeCommitted(vertices: seq<Point>)
    requires |vertices| >= 3
    ensures Committed(PolygonShape(vertices)) && PolygonShape(vertices).points == vertices
  {
  }
}
