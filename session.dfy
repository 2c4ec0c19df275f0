/**
 * The drawing session of cad1.js: the module-level state (lines 6-11) as
 * the fields of one object, and the event handlers as its methods. Pointer
 * coordinates arrive as parameters; each handler returns the canvas calls
 * it makes.
 */
module Session {
  import opened Wrappers
  import opened Geometry
  import opened Shapes
  import opened Transform
  import opened Renderer

  class DrawingSession {
    var shapes: seq<Shape>
    var selectedShape: Kind
    var isDrawing: bool
    var startPoint: Option<Point>
    var polygonPoints: seq<Point>
    var circleCenter: Option<Point>

    /**
     * What every handler keeps: the stored shapes are of the forms the
     * handlers create, a drag only runs once an anchor was recorded, and a
     * circle centre is only pending while "circle" is selected, where it is
     * the anchor of the current drag.
     */
    ghost predicate Valid()
      reads this
    {
      (forall i :: 0 <= i < |shapes| ==> Committed(shapes[i])) &&
      (isDrawing ==> startPoint.Some?) &&
      (circleCenter.Some? ==> selectedShape == Circle && circleCenter == startPoint)
    }

    /** Whether a mouse-up can build its shape: the generic branch reads the anchor. */
    predicate CanRelease()
      reads this
    {
      selectedShape != Polygon && !(selectedShape == Circle && circleCenter.Some?) ==> startPoint.Some?
    }

    /** The initial values of the module-level state. */
    constructor ()
      ensures Valid()
      ensures shapes == [] && selectedShape == Line && !isDrawing
      ensures startPoint == None && polygonPoints == [] && circleCenter == None
    {
      shapes := [];
      selectedShape := Line;
      isDrawing := false;
      startPoint := None;
      polygonPoints := [];
      circleCenter := None;
    }

    /**
     * The "change" listener of the shape selector: selects `kind` and drops
     * the pending polygon vertices and circle centre; a drag in progress and
     * its anchor are kept.
     */
    method ChangeKind(kind: Kind)
      requires Valid()
      modifies this
      ensures Valid()
      ensures selectedShape == kind && polygonPoints == [] && circleCenter == None
      ensures shapes == old(shapes) && isDrawing == old(isDrawing) && startPoint == old(startPoint)
    {
      selectedShape := kind;
      polygonPoints := [];
      circleCenter := None;
    }

    /**
     * The mouse-down handler startDrawing: records the anchor; for "polygon"
     * adds a vertex and redraws, otherwise starts a drag, for "circle" with
     * the anchor as centre. The shape list is never changed.
     */
    method StartDrawing(click: Point) returns (drawn: Trace)
      requires Valid()
      modifies this
      ensures Valid()
      ensures startPoint == Some(click)
      ensures shapes == old(shapes) && selectedShape == old(selectedShape)
      ensures selectedShape == Polygon ==>
        polygonPoints == old(polygonPoints) + [click] && isDrawing == old(isDrawing) &&
        circleCenter == old(circleCenter) && drawn == Render(shapes)
      ensures selectedShape != Polygon ==>
        isDrawing && polygonPoints == old(polygonPoints) && drawn == Trace([], true) &&
        circleCenter == (if selectedShape == Circle then Some(click) else old(circleCenter))
    {
      startPoint := Some(click);
      if selectedShape == Polygon {
        polygonPoints := polygonPoints + [click];
        drawn := RedrawShapes(shapes);
        return;
      }
      isDrawing := true;
      if selectedShape == Circle {
        circleCenter := startPoint;
      }
      drawn := Trace([], true);
    }

    /**
     * The mouse-up handler finalizeShape. For "polygon" nothing happens.
     * Otherwise the drag ends and exactly one shape of the selected kind is
     * appended: a circle with the pending centre and radius `hypot`, or, for
     * every other kind and for a "circle" with no pending centre, the anchor
     * and release point (and a triangle's derived third vertex); then the
     * list is redrawn. `hypot` is the value Math.sqrt returns for the circle
     * branch. Neither the drag flag nor the anchor is checked.
     */
    method FinalizeShape(release: Point, hypot: real) returns (drawn: Trace)
      requires Valid() && CanRelease()
      requires selectedShape == Circle && circleCenter.Some? ==>
        IsHypot(hypot, release.x - circleCenter.value.x, release.y - circleCenter.value.y)
      modifies this
      ensures Valid()
      ensures selectedShape == old(selectedShape) && startPoint == old(startPoint)
      ensures polygonPoints == old(polygonPoints)
      ensures old(selectedShape) == Polygon ==>
        shapes == old(shapes) && isDrawing == old(isDrawing) && circleCenter == old(circleCenter) &&
        drawn == Trace([], true)
      ensures old(selectedShape) != Polygon ==>
        !isDrawing && circleCenter == None &&
        shapes == old(shapes) + [ReleasedShape(old(selectedShape), old(startPoint), old(circleCenter), release, hypot)] &&
        drawn == Render(shapes)
    {
      if selectedShape == Polygon {
        drawn := Trace([], true);
        return;
      }
      isDrawing := false;
      ReleasedShapeGeometry(selectedShape, startPoint, circleCenter, release, hypot);
      if selectedShape == Circle && circleCenter.Some? {
        var radius := hypot;
        shapes := shapes + [Shape(Circle, [], circleCenter, radius, Identity())];
        circleCenter := None;
        drawn := RedrawShapes(shapes);
        return;
      }
      var s := startPoint.value;
      var points := if selectedShape == Triangle then
          [s, release, Point((s.x + release.x) / 2.0, s.y - Abs(release.y - s.y))]
        else [s, release];
      shapes := shapes + [Shape(selectedShape, points, None, 0.0, Identity())];
      drawn := RedrawShapes(shapes);
    }

    /**
     * completePolygon: with at least three pending vertices, appends one
     * "polygon" holding a copy of them in click order, empties the pending
     * list and redraws; with fewer, does nothing.
     */
    method CompletePolygon() returns (drawn: Trace)
      requires Valid()
      modifies this
      ensures Valid()
      ensures selectedShape == old(selectedShape) && isDrawing == old(isDrawing)
      ensures startPoint == old(startPoint) && circleCenter == old(circleCenter)
      ensures |old(polygonPoints)| >= 3 ==>
        shapes == old(shapes) + [PolygonShape(old(polygonPoints))] && polygonPoints == [] &&
        drawn == Render(shapes)
      ensures |old(polygonPoints)| < 3 ==>
        shapes == old(shapes) && polygonPoints == old(polygonPoints) && drawn == Trace([], true)
    {
      if |polygonPoints| >= 3 {
        PolygonShapeCommitted(polygonPoints);
        shapes := shapes + [Shape(Polygon, polygonPoints, None, 0.0, Identity())];
        polygonPoints := [];
        drawn := RedrawShapes(shapes);
      } else {
        drawn := Trace([], true);
      }
    }

    /**
     * clearCanvas: empties the shape list and the pending vertices, drops the
     * pending centre and clears the surface; the selected kind, the drag
     * flag and the anchor are kept.
     */
    method ClearCanvas() returns (drawn: Trace)
      requires Valid()
      modifies this
      ensures Valid()
      ensures shapes == [] && polygonPoints == [] && circleCenter == None
      ensures selectedShape == old(selectedShape) && isDrawing == old(isDrawing) && startPoint == old(startPoint)
      ensures drawn == Trace([ClearRect], true)
    {
      shapes := [];
      polygonPoints := [];
      circleCenter := None;
      drawn := Trace([ClearRect], true);
    }

    /**
     * applyTransform: rewrites, in list order, each circle's centre or each
     * other shape's points through `m`, then redraws. At a circle with no
     * centre the source throws: the shapes before it stay transformed and
     * nothing is drawn.
     */
    method ApplyTransform(m: Mat3) returns (drawn: Trace)
      requires Valid()
      modifies this
      ensures Valid()
      ensures shapes == TransformAll(m, old(shapes))
      ensures selectedShape == old(selectedShape) && isDrawing == old(isDrawing) && startPoint == old(startPoint)
      ensures polygonPoints == old(polygonPoints) && circleCenter == old(circleCenter)
      ensures drawn == if FirstCentreless(old(shapes)) == |old(shapes)| then Render(shapes) else Trace([], false)
    {
      ghost var before := shapes;
      TransformKeepsCommitted(m, before);
      var i := 0;
      while i < |shapes|
        invariant 0 <= i <= |shapes| == |before|
        invariant selectedShape == old(selectedShape) && isDrawing == old(isDrawing) && startPoint == old(startPoint)
        invariant polygonPoints == old(polygonPoints) && circleCenter == old(circleCenter)
        invariant forall j :: 0 <= j < i ==> !Centreless(before[j]) && shapes[j] == TransformShape(m, before[j])
        invariant forall j :: i <= j < |shapes| ==> shapes[j] == before[j]
      {
        var shape := shapes[i];
        if Centreless(shape) {
          TransformAllUpTo(m, before, shapes, i);
          return Trace([], false);
        }
        var moved := TransformOne(m, shape);
        shapes := shapes[i := moved];
        i := i + 1;
      }
      TransformAllUpTo(m, before, shapes, i);
      drawn := RedrawShapes(shapes);
    }

    /**
     * The body of applyTransform's loop for one shape: read the centre of a
     * circle, or loop over the points of any other shape, and replace each
     * by the (x, y) of `mult(m, vec3(x, y, 1))`.
     */
    static method TransformOne(m: Mat3, shape: Shape) returns (moved: Shape)
      requires !Centreless(shape)
      ensures moved == TransformShape(m, shape)
    {
      if shape.kind == Circle {
        var c := shape.center.value;
        var q := Mult(m, Vec3(c.x, c.y, 1.0));
        return shape.(center := Some(Point(q.x, q.y)));
      }
      var points := shape.points;
      var j := 0;
      while j < |points|
        invariant 0 <= j <= |points| == |shape.points|
        invariant forall k :: 0 <= k < j ==> points[k] == Apply(m, shape.points[k])
        invariant forall k :: j <= k < |points| ==> points[k] == shape.points[k]
      {
        var q := Mult(m, Vec3(points[j].x, points[j].y, 1.0));
        points := points[j := Point(q.x, q.y)];
        j := j + 1;
      }
      assert points == MapPoints(m, shape.points);
      return shape.(points := points);
    }

    /** translateShape(dx, dy): applyTransform with the translation matrix. */
    method TranslateShape(dx: real, dy: real) returns (drawn: Trace)
      requires Valid()
      modifies this
      ensures Valid()
      ensures shapes == TransformAll(TranslationMatrix(dx, dy), old(shapes))
      ensures selectedShape == old(selectedShape) && isDrawing == old(isDrawing) && startPoint == old(startPoint)
      ensures polygonPoints == old(polygonPoints) && circleCenter == old(circleCenter)
      ensures drawn == if FirstCentreless(old(shapes)) == |old(shapes)| then Render(shapes) else Trace([], false)
    {
      drawn := ApplyTransform(TranslationMatrix(dx, dy));
    }

    /** scaleShape(sx, sy): applyTransform with the scaling matrix. */
    method ScaleShape(sx: real, sy: real) returns (drawn: Trace)
      requires Valid()
      modifies this
      ensures Valid()
      ensures shapes == TransformAll(ScaleMatrix(sx, sy), old(shapes))
      ensures selectedShape == old(selectedShape) && isDrawing == old(isDrawing) && startPoint == old(startPoint)
      ensures polygonPoints == old(polygonPoints) && circleCenter == old(circleCenter)
      ensures drawn == if FirstCentreless(old(shapes)) == |old(shapes)| then Render(shapes) else Trace([], false)
    {
      drawn := ApplyTransform(ScaleMatrix(sx, sy));
    }

    /**
     * rotateShape: applyTransform with the rotation matrix, given the cosine
     * `c` and sine `s` of the angle instead of the angle itself.
     */
    method RotateShape(c: real, s: real) returns (drawn: Trace)
      requires Valid()
      modifies this
      ensures Valid()
      ensures shapes == TransformAll(RotationMatrix(c, s), old(shapes))
      ensures selectedShape == old(selectedShape) && isDrawing == old(isDrawing) && startPoint == old(startPoint)
      ensures polygonPoints == old(polygonPoints) && circleCenter == old(circleCenter)
      ensures drawn == if FirstCentreless(old(shapes)) == |old(shapes)| then Render(shapes) else Trace([], false)
    {
      drawn := ApplyTransform(RotationMatrix(c, s));
    }

    /**
     * The mouse-move handler drawShape: outside a drag, or for "polygon",
     * nothing. During a drag it clears the surface, replays the stored
     * shapes and, if that did not throw, strokes the shape a mouse-up at
     * `pointer` would commit (an empty path for a circle with no pending
     * centre). It changes no state.
     */
    method DrawShape(pointer: Point, hypot: real) returns (drawn: Trace)
      requires Valid()
      requires isDrawing && selectedShape == Circle && circleCenter.Some? ==>
        IsHypot(hypot, pointer.x - circleCenter.value.x, pointer.y - circleCenter.value.y)
      ensures !isDrawing || selectedShape == Polygon ==> drawn == Trace([], true)
      ensures isDrawing && selectedShape != Polygon && !Render(shapes).completed ==>
        drawn == Trace([ClearRect] + Render(shapes).commands, false)
      ensures isDrawing && Render(shapes).completed && selectedShape == Circle && circleCenter.None? ==>
        drawn == Trace([ClearRect] + Render(shapes).commands + [BeginPath, Stroke], true)
      ensures isDrawing && Render(shapes).completed && selectedShape != Polygon &&
              (selectedShape == Circle ==> circleCenter.Some?) ==>
        drawn == Trace([ClearRect] + Render(shapes).commands +
                       Group(ReleasedShape(selectedShape, startPoint, circleCenter, pointer, hypot)), true)
    {
      if !isDrawing || selectedShape == Polygon {
        return Trace([], true);
      }
      var replay := RedrawShapes(shapes);
      if !replay.completed {
        return Trace([ClearRect] + replay.commands, false);
      }
      var path := PreviewOutline(selectedShape, startPoint.value, circleCenter, pointer, hypot);
      if !(selectedShape == Circle && circleCenter.None?) {
        PreviewMatchesCommit(selectedShape, startPoint.value, circleCenter, pointer, hypot);
      }
      drawn := Trace([ClearRect] + replay.commands + [BeginPath] + path + [Stroke], true);
    }
  }

  /** One drag gesture: pointer down, pointer up, and the root Math.sqrt gives for a circle. */
  datatype Drag = Drag(down: Point, up: Point, hypot: real)

  /**
   * N mouse-down/mouse-up gestures on a non-polygon kind add exactly N
   * shapes of that kind after the ones already stored.
   */
  method DragGestures(session: DrawingSession, drags: seq<Drag>)
    requires session.Valid() && session.selectedShape != Polygon
    requires session.selectedShape == Circle ==>
      forall i :: 0 <= i < |drags| ==>
        IsHypot(drags[i].hypot, drags[i].up.x - drags[i].down.x, drags[i].up.y - drags[i].down.y)
    modifies session
    ensures session.Valid() && session.selectedShape == old(session.selectedShape)
    ensures |session.shapes| == |old(session.shapes)| + |drags|
    ensures session.shapes[..|old(session.shapes)|] == old(session.shapes)
    ensures forall i :: |old(session.shapes)| <= i < |session.shapes| ==>
      session.shapes[i].kind == session.selectedShape
  {
    ghost var before := session.shapes;
    var n := 0;
    while n < |drags|
      invariant 0 <= n <= |drags|
      invariant session.Valid() && session.selectedShape == old(session.selectedShape)
      invariant |session.shapes| == |before| + n
      invariant session.shapes[..|before|] == before
      invariant forall i :: |before| <= i < |session.shapes| ==> session.shapes[i].kind == session.selectedShape
    {
      var d := drags[n];
      var _ := session.StartDrawing(d.down);
      ghost var prev := session.shapes;
      var _ := session.FinalizeShape(d.up, d.hypot);
      assert session.shapes[..|prev|] == prev;
      n := n + 1;
    }
  }

  /**
   * A kind switch in the middle of a drag: the mouse-up finds "circle"
   * selected and no centre, commits a circle without one, and the redraw
   * that follows throws right after beginning that circle's path.
   */
  method KindSwitchMidDrag() returns (drawn: Trace)
    ensures drawn == Trace([ClearRect, BeginPath], false)
  {
    var session := new DrawingSession();
    var _ := session.StartDrawing(Point(0.0, 0.0));
    session.ChangeKind(Circle);
    drawn := session.FinalizeShape(Point(3.0, 4.0), 5.0);
    var broken := Shape(Circle, [Point(0.0, 0.0), Point(3.0, 4.0)], None, 0.0, Identity());
    assert session.shapes == [broken];
    assert [broken][..0] == [];
    assert Group(broken) == [BeginPath];
    assert Replay([broken]) == Trace([BeginPath], false);
  }
}
