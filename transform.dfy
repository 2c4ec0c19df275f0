/**
 * The batch transform of applyTransform: every stored shape's points, or a
 * circle's centre, are sent through one 3x3 matrix. The loop that does it
 * in place is DrawingSession.ApplyTransform; this module gives the list it
 * produces and what is proved about that list.
 */
module Transform {
  import opened Wrappers
  import opened Geometry
  import opened Shapes

  function MapPoints(m: Mat3, pts: seq<Point>): seq<Point>
  {
    seq(|pts|, i requires 0 <= i < |pts| => Apply(m, pts[i]))
  }

  /**
   * One shape after the transform: a circle gets a new centre, any other
   * shape new points; kind, radius and the `transform` field stay.
   */
  function TransformShape(m: Mat3, s: Shape): (r: Shape)
    requires !Centreless(s)
    ensures r.kind == s.kind && |r.points| == |s.points| && r.center.Some? == s.center.Some?
    ensures r.radius == s.radius && r.transform == s.transform
  {
    if s.kind == Circle then s.(center := Some(Apply(m, s.center.value)))
    else s.(points := MapPoints(m, s.points))
  }

  /**
   * The shape list after applyTransform(m). A centre-less circle makes the
   * source's loop throw when it reads the circle's centre, so the shapes
   * before it are rewritten and it and every shape after it are left as
   * they were.
   */
  function TransformAll(m: Mat3, ss: seq<Shape>): (r: seq<Shape>)
    ensures |r| == |ss|
  {
    if ss == [] then []
    else if Centreless(ss[0]) then ss
    else [TransformShape(m, ss[0])] + TransformAll(m, ss[1..])
  }

  /** The position of the first centre-less circle, or the length of the list if there is none. */
  function FirstCentreless(ss: seq<Shape>): (k: nat)
    ensures k <= |ss|
    ensures forall i :: 0 <= i < k ==> !Centreless(ss[i])
    ensures k < |ss| ==> Centreless(ss[k])
  {
    if ss == [] then 0
    else if Centreless(ss[0]) then 0
    else 1 + FirstCentreless(ss[1..])
  }

  /**
   * Shape by shape: the shapes before the first centre-less circle are
   * transformed, the others are unchanged; the list keeps its length and order.
   */
  lemma {:induction false} TransformAllAt(m: Mat3, ss: seq<Shape>)
    ensures |TransformAll(m, ss)| == |ss|
    ensures forall i :: 0 <= i < |ss| ==>
      TransformAll(m, ss)[i] == if i < FirstCentreless(ss) then TransformShape(m, ss[i]) else ss[i]
  {
    if ss != [] && !Centreless(ss[0]) {
      TransformAllAt(m, ss[1..]);
      forall i | 0 <= i < |ss|
        ensures TransformAll(m, ss)[i] == if i < FirstCentreless(ss) then TransformShape(m, ss[i]) else ss[i]
      {
        if i > 0 {
          assert ss[1..][i - 1] == ss[i];
        }
      }
    }
  }

  /**
   * A list that agrees with the transformed shapes before `i` and with the
   * original ones from `i` on, where `i` is the end of the list or a
   * centre-less circle with none before it, is what TransformAll returns.
   */
  lemma TransformAllUpTo(m: Mat3, ss: seq<Shape>, r: seq<Shape>, i: nat)
    requires i <= |ss| == |r|
    requires i == |ss| || Centreless(ss[i])
    requires forall j :: 0 <= j < i ==> !Centreless(ss[j]) && r[j] == TransformShape(m, ss[j])
    requires forall j :: i <= j < |ss| ==> r[j] == ss[j]
    ensures r == TransformAll(m, ss)
  {
    TransformAllAt(m, ss);
  }

  /** TransformAllAt for one position. */
  lemma TransformAllIndex(m: Mat3, ss: seq<Shape>, i: nat)
    requires i < |ss|
    ensures |TransformAll(m, ss)| == |ss|
    ensures TransformAll(m, ss)[i] == if i < FirstCentreless(ss) then TransformShape(m, ss[i]) else ss[i]
  {
    TransformAllAt(m, ss);
  }

  /**
   * What applyTransform leaves alone: the number of shapes, their order and
   * kinds, each shape's point count, whether it has a centre, every radius
   * and every `transform` field. Only points and centres are replaced, each
   * by its image under `m`.
   */
  lemma TransformPreserves(m: Mat3, ss: seq<Shape>)
    ensures var r := TransformAll(m, ss);
      |r| == |ss| &&
      forall i :: 0 <= i < |ss| ==>
        r[i].kind == ss[i].kind && |r[i].points| == |ss[i].points| &&
        r[i].center.Some? == ss[i].center.Some? &&
        r[i].radius == ss[i].radius && r[i].transform == ss[i].transform
    ensures var r := TransformAll(m, ss);
      forall i :: 0 <= i < FirstCentreless(ss) ==>
        (ss[i].kind == Circle ==> r[i].center == Some(Apply(m, ss[i].center.value)) && r[i].points == ss[i].points) &&
        (ss[i].kind != Circle ==>
           r[i].center == ss[i].center &&
           forall j :: 0 <= j < |ss[i].points| ==> r[i].points[j] == Apply(m, ss[i].points[j]))
  {
    TransformAllAt(m, ss);
  }

  /** The transform stops at the same place whatever the matrix, and keeps stopping there. */
  lemma TransformKeepsBreak(m: Mat3, ss: seq<Shape>)
    ensures FirstCentreless(TransformAll(m, ss)) == FirstCentreless(ss)
  {
    TransformAllAt(m, ss);
  }

  /** Every shape the session can hold is still one after any transform. */
  lemma TransformKeepsCommitted(m: Mat3, ss: seq<Shape>)
    requires forall i :: 0 <= i < |ss| ==> Committed(ss[i])
    ensures |TransformAll(m, ss)| == |ss|
    ensures forall i :: 0 <= i < |ss| ==> Committed(TransformAll(m, ss)[i])
  {
    TransformAllAt(m, ss);
  }

  /** The identity matrix leaves every shape list as it is. */
  lemma {:induction false} TransformIdentity(ss: seq<Shape>)
    ensures TransformAll(Identity(), ss) == ss
  {
    if ss != [] && !Centreless(ss[0]) {
      TransformIdentity(ss[1..]);
      var s := ss[0];
      if s.kind != Circle {
        assert MapPoints(Identity(), s.points) == s.points;
      }
      assert TransformShape(Identity(), s) == s;
      assert [s] + ss[1..] == ss;
    }
  }

  /** A shape moved by (dx, dy), point by point, written without matrices. */
  function Translated(s: Shape, dx: real, dy: real): Shape
    requires !Centreless(s)
  {
    if s.kind == Circle then
      var c := s.center.value;
      s.(center := Some(Point(c.x + dx, c.y + dy)))
    else
      s.(points := seq(|s.points|, i requires 0 <= i < |s.points| => Point(s.points[i].x + dx, s.points[i].y + dy)))
  }

  /** A shape scaled by (sx, sy) about the origin, point by point, written without matrices. */
  function Scaled(s: Shape, sx: real, sy: real): Shape
    requires !Centreless(s)
  {
    if s.kind == Circle then
      var c := s.center.value;
      s.(center := Some(Point(sx * c.x, sy * c.y)))
    else
      s.(points := seq(|s.points|, i requires 0 <= i < |s.points| => Point(sx * s.points[i].x, sy * s.points[i].y)))
  }

  /** translateShape(dx, dy) sends every point (x, y) of a shape, or its centre, to (x + dx, y + dy). */
  lemma TranslateShapeMeaning(s: Shape, dx: real, dy: real)
    requires !Centreless(s)
    ensures TransformShape(TranslationMatrix(dx, dy), s) == Translated(s, dx, dy)
  {
    if s.kind != Circle {
      assert MapPoints(TranslationMatrix(dx, dy), s.points) == Translated(s, dx, dy).points;
    }
  }

  /**
   * scaleShape(sx, sy) sends every point (x, y), or a circle's centre, to
   * (sx * x, sy * y); a circle's radius is not scaled.
   */
  lemma ScaleShapeMeaning(s: Shape, sx: real, sy: real)
    requires !Centreless(s)
    ensures TransformShape(ScaleMatrix(sx, sy), s) == Scaled(s, sx, sy)
  {
    if s.kind != Circle {
      assert MapPoints(ScaleMatrix(sx, sy), s.points) == Scaled(s, sx, sy).points;
    }
  }

  /** Transforming by `b` and then by `a` is transforming once by `a * b`, for affine `b`. */
  lemma {:induction false} TransformCompose(a: Mat3, b: Mat3, ss: seq<Shape>)
    requires IsAffine(b)
    ensures TransformAll(a, TransformAll(b, ss)) == TransformAll(MatMul(a, b), ss)
  {
    if ss != [] && !Centreless(ss[0]) {
      TransformCompose(a, b, ss[1..]);
      var s := ss[0];
      var bs := TransformShape(b, s);
      assert !Centreless(bs);
      if s.kind == Circle {
        ApplyMatMul(a, b, s.center.value);
      } else {
        forall j | 0 <= j < |s.points|
          ensures MapPoints(a, MapPoints(b, s.points))[j] == MapPoints(MatMul(a, b), s.points)[j]
        {
          ApplyMatMul(a, b, s.points[j]);
        }
      }
      assert TransformShape(a, bs) == TransformShape(MatMul(a, b), s);
      var rest := TransformAll(b, ss);
      assert rest[0] == bs && rest[1..] == TransformAll(b, ss[1..]);
    }
  }

  /**
   * Translating by (dx, dy) and then by (-dx, -dy) gives back every shape
   * exactly, over the reals.
   */
  lemma TranslateRoundTrip(dx: real, dy: real, ss: seq<Shape>)
    ensures TransformAll(TranslationMatrix(-dx, -dy), TransformAll(TranslationMatrix(dx, dy), ss)) == ss
  {
    TransformCompose(TranslationMatrix(-dx, -dy), TranslationMatrix(dx, dy), ss);
    TranslationInverse(dx, dy);
    TransformIdentity(ss);
  }

  /** Repeated translations compound: two presses of "translate" move by the summed offsets. */
  lemma TranslationsCompound(dx1: real, dy1: real, dx2: real, dy2: real, ss: seq<Shape>)
    ensures TransformAll(TranslationMatrix(dx2, dy2), TransformAll(TranslationMatrix(dx1, dy1), ss))
         == TransformAll(TranslationMatrix(dx1 + dx2, dy1 + dy2), ss)
  {
    TransformCompose(TranslationMatrix(dx2, dy2), TranslationMatrix(dx1, dy1), ss);
    TranslationsAccumulate(dx1, dy1, dx2, dy2);
  }
}
