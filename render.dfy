/**
 * The replay renderer redrawShapes, seen through the canvas calls it makes,
 * and the path the live preview of drawShape strokes.
 */
module Renderer {
  import opened Wrappers
  import opened Geometry
  import opened Shapes
  import opened Transform

  /** The canvas calls of the renderer; every `arc` is the full turn from 0 to 2π. */
  datatype Command =
    | ClearRect
    | BeginPath
    | MoveTo(p: Point)
    | LineTo(p: Point)
    | Rect(x: real, y: real, w: real, h: real)
    | Arc(center: Point, radius: real)
    | ClosePath
    | Stroke

  /**
   * The calls a handler makes, in order, and whether it ran to its end:
   * `completed` is false when it threw a TypeError right after the last call
   * listed (reading a point or a centre the shape does not have).
   */
  datatype Trace = Trace(commands: seq<Command>, completed: bool)

  /** A shape whose branch of the renderer finds every point or centre it reads. */
  predicate Drawable(s: Shape)
  {
    match s.kind
    case Line => |s.points| >= 2
    case Rectangle => |s.points| >= 2
    case Triangle => |s.points| >= 3
    case Polygon => |s.points| >= 1
    case Circle => s.center.Some?
  }

  function LinesTo(pts: seq<Point>): seq<Command>
  {
    seq(|pts|, i requires 0 <= i < |pts| => LineTo(pts[i]))
  }

  /**
   * The calls one shape's branch makes between `beginPath` and `stroke`,
   * up to the first point or centre that is missing.
   */
  function Outline(s: Shape): (t: Trace)
    ensures t.completed <==> Drawable(s)
  {
    var p := s.points;
    match s.kind
    case Line =>
      if |p| == 0 then Trace([], false)
      else if |p| == 1 then Trace([MoveTo(p[0])], false)
      else Trace([MoveTo(p[0]), LineTo(p[1])], true)
    case Rectangle =>
      if |p| < 2 then Trace([], false)
      else Trace([Rect(p[0].x, p[0].y, p[1].x - p[0].x, p[1].y - p[0].y)], true)
    case Triangle =>
      if |p| == 0 then Trace([], false)
      else if |p| == 1 then Trace([MoveTo(p[0])], false)
      else if |p| == 2 then Trace([MoveTo(p[0]), LineTo(p[1])], false)
      else Trace([MoveTo(p[0]), LineTo(p[1]), LineTo(p[2]), ClosePath], true)
    case Polygon =>
      if |p| == 0 then Trace([], false)
      else Trace([MoveTo(p[0])] + LinesTo(p[1..]) + [ClosePath], true)
    case Circle =>
      if s.center.None? then Trace([], false)
      else Trace([Arc(s.center.value, s.radius)], true)
  }

  /** One iteration of the renderer's loop: `beginPath`, the outline and, if it got that far, `stroke`. */
  function Group(s: Shape): seq<Command>
  {
    var o := Outline(s);
    [BeginPath] + o.commands + (if o.completed then [Stroke] else [])
  }

  /** The renderer's loop over `ss`, one shape at a time, stopping at the first throw. */
  function Replay(ss: seq<Shape>): Trace
    decreases |ss|
  {
    if ss == [] then Trace([], true)
    else
      var t := Replay(ss[..|ss| - 1]);
      if !t.completed then t
      else Trace(t.commands + Group(ss[|ss| - 1]), Outline(ss[|ss| - 1]).completed)
  }

  /** redrawShapes: clear the surface, then replay the list. */
  function Render(ss: seq<Shape>): (t: Trace)
    ensures |t.commands| >= 1 && t.commands[0] == ClearRect
    ensures t.completed == Replay(ss).completed
  {
    var t := Replay(ss);
    Trace([ClearRect] + t.commands, t.completed)
  }

  /** The stroke groups of `ss` concatenated in list order: the reference for Render. */
  function Groups(ss: seq<Shape>): seq<Command>
  {
    if ss == [] then [] else Group(ss[0]) + Groups(ss[1..])
  }

  lemma {:induction false} GroupsAppend(ss: seq<Shape>, s: Shape)
    ensures Groups(ss + [s]) == Groups(ss) + Group(s)
  {
    if ss != [] {
      assert (ss + [s])[1..] == ss[1..] + [s];
      GroupsAppend(ss[1..], s);
    }
  }

  /** The renderer runs to its end exactly when every stored shape is drawable. */
  lemma {:induction false} RenderCompletes(ss: seq<Shape>)
    ensures Render(ss).completed <==> forall i :: 0 <= i < |ss| ==> Drawable(ss[i])
  {
    if ss != [] {
      var init := ss[..|ss| - 1];
      RenderCompletes(init);
      assert forall i :: 0 <= i < |init| ==> init[i] == ss[i];
    }
  }

  /** A shape the session can hold fails to draw only if it is a circle without a centre. */
  lemma CommittedDrawable(s: Shape)
    requires Committed(s)
    ensures Drawable(s) <==> !Centreless(s)
  {
  }

  /**
   * Over the shapes the session can hold, the renderer throws exactly when
   * a centre-less circle is stored.
   */
  lemma CommittedRenderCompletes(ss: seq<Shape>)
    requires forall i :: 0 <= i < |ss| ==> Committed(ss[i])
    ensures Render(ss).completed <==> FirstCentreless(ss) == |ss|
  {
    RenderCompletes(ss);
    forall i | 0 <= i < |ss|
      ensures Drawable(ss[i]) <==> !Centreless(ss[i])
    {
      CommittedDrawable(ss[i]);
    }
  }

  lemma {:induction false} ReplayInOrder(ss: seq<Shape>)
    requires forall i :: 0 <= i < |ss| ==> Drawable(ss[i])
    ensures Replay(ss) == Trace(Groups(ss), true)
  {
    if ss != [] {
      var init, last := ss[..|ss| - 1], ss[|ss| - 1];
      assert forall i :: 0 <= i < |init| ==> init[i] == ss[i];
      ReplayInOrder(init);
      GroupsAppend(init, last);
      assert init + [last] == ss;
      assert Outline(last).completed;
    }
  }

  /**
   * When every shape is drawable the renderer clears the surface and then
   * strokes one `beginPath ... stroke` group per shape, in list order.
   */
  lemma RenderInOrder(ss: seq<Shape>)
    requires forall i :: 0 <= i < |ss| ==> Drawable(ss[i])
    ensures Render(ss) == Trace([ClearRect] + Groups(ss), true)
  {
    ReplayInOrder(ss);
  }

  /** Once the loop has thrown, the shapes after that point change nothing. */
  lemma {:induction false} ReplayStuck(ss: seq<Shape>, k: nat)
    requires k <= |ss|
    requires !Replay(ss[..k]).completed
    ensures Replay(ss) == Replay(ss[..k])
  {
    if k < |ss| {
      var init := ss[..|ss| - 1];
      assert init[..k] == ss[..k];
      ReplayStuck(init, k);
    } else {
      assert ss[..k] == ss;
    }
  }

  /**
   * With a broken shape at `k` (the first one), the renderer strokes the
   * groups of the shapes before it, begins the broken shape's path, makes
   * the calls its branch gets through, and throws: nothing after it is drawn.
   */
  lemma RenderStopsAt(ss: seq<Shape>, k: nat)
    requires k < |ss|
    requires forall i :: 0 <= i < k ==> Drawable(ss[i])
    requires !Drawable(ss[k])
    ensures Render(ss) == Trace([ClearRect] + Groups(ss[..k]) + [BeginPath] + Outline(ss[k]).commands, false)
  {
    var pre := ss[..k];
    assert forall i :: 0 <= i < k ==> pre[i] == ss[i];
    ReplayInOrder(pre);
    assert ss[..k + 1][..k] == pre;
    assert ss[..k + 1][k] == ss[k];
    ReplayStuck(ss, k + 1);
  }

  /**
   * The outlines of drawable shapes: a line is one segment between its two
   * points; a rectangle is the axis-aligned `rect` at the first point whose
   * signed width and height reach the second; a triangle is a closed path
   * through its three points; a circle is the arc at its centre and radius.
   */
  lemma OutlineShapes(s: Shape)
    requires Drawable(s)
    ensures s.kind == Line ==> Outline(s).commands == [MoveTo(s.points[0]), LineTo(s.points[1])]
    ensures s.kind == Rectangle ==>
      exists w, h :: Outline(s).commands == [Rect(s.points[0].x, s.points[0].y, w, h)] &&
                     s.points[0].x + w == s.points[1].x && s.points[0].y + h == s.points[1].y
    ensures s.kind == Triangle ==>
      Outline(s).commands == [MoveTo(s.points[0]), LineTo(s.points[1]), LineTo(s.points[2]), ClosePath]
    ensures s.kind == Circle ==> Outline(s).commands == [Arc(s.center.value, s.radius)]
  {
    if s.kind == Rectangle {
      var p := s.points;
      assert Outline(s).commands == [Rect(p[0].x, p[0].y, p[1].x - p[0].x, p[1].y - p[0].y)];
    }
  }

  /**
   * A polygon of n points is drawn as one `moveTo` to its first point,
   * n - 1 `lineTo`s through the others in order, and `closePath`.
   */
  lemma PolygonOutline(s: Shape)
    requires s.kind == Polygon && |s.points| >= 1
    ensures var c, n := Outline(s).commands, |s.points|;
      |c| == n + 1 && c[0] == MoveTo(s.points[0]) && c[n] == ClosePath &&
      forall i :: 1 <= i < n ==> c[i] == LineTo(s.points[i])
  {
    var c, p := Outline(s).commands, s.points;
    assert c == [MoveTo(p[0])] + LinesTo(p[1..]) + [ClosePath];
    forall i | 1 <= i < |p|
      ensures c[i] == LineTo(p[i])
    {
      assert c[i] == LinesTo(p[1..])[i - 1];
    }
  }

  /** A canvas call moved by (dx, dy): points and corners move, widths, heights and radii do not. */
  function ShiftCommand(c: Command, dx: real, dy: real): Command
  {
    match c
    case MoveTo(p) => MoveTo(Point(p.x + dx, p.y + dy))
    case LineTo(p) => LineTo(Point(p.x + dx, p.y + dy))
    case Rect(x, y, w, h) => Rect(x + dx, y + dy, w, h)
    case Arc(center, r) => Arc(Point(center.x + dx, center.y + dy), r)
    case _ => c
  }

  function ShiftCommands(cs: seq<Command>, dx: real, dy: real): seq<Command>
  {
    seq(|cs|, i requires 0 <= i < |cs| => ShiftCommand(cs[i], dx, dy))
  }

  function ShiftTrace(t: Trace, dx: real, dy: real): Trace
  {
    Trace(ShiftCommands(t.commands, dx, dy), t.completed)
  }

  lemma ShiftConcat(a: seq<Command>, b: seq<Command>, dx: real, dy: real)
    ensures ShiftCommands(a + b, dx, dy) == ShiftCommands(a, dx, dy) + ShiftCommands(b, dx, dy)
  {
  }

  /** Translating a shape moves its outline by the same offset. */
  lemma OutlineTranslated(s: Shape, dx: real, dy: real)
    requires !Centreless(s)
    ensures Outline(Translated(s, dx, dy)) == ShiftTrace(Outline(s), dx, dy)
  {
    if s.kind == Polygon && |s.points| > 0 {
      var p, q := s.points, Translated(s, dx, dy).points;
      assert LinesTo(q[1..]) == ShiftCommands(LinesTo(p[1..]), dx, dy);
      ShiftConcat([MoveTo(p[0])] + LinesTo(p[1..]), [ClosePath], dx, dy);
      ShiftConcat([MoveTo(p[0])], LinesTo(p[1..]), dx, dy);
    }
  }

  lemma GroupShifted(s: Shape, s': Shape, dx: real, dy: real)
    requires Outline(s') == ShiftTrace(Outline(s), dx, dy)
    ensures Group(s') == ShiftCommands(Group(s), dx, dy)
  {
    var o := Outline(s);
    ShiftConcat([BeginPath], o.commands, dx, dy);
    ShiftConcat([BeginPath] + o.commands, if o.completed then [Stroke] else [], dx, dy);
  }

  lemma {:induction false} ReplayTranslated(ss: seq<Shape>, r: seq<Shape>, dx: real, dy: real)
    requires |r| == |ss|
    requires forall i :: 0 <= i < |ss| && Replay(ss[..i]).completed ==>
      Outline(r[i]) == ShiftTrace(Outline(ss[i]), dx, dy)
    ensures Replay(r) == ShiftTrace(Replay(ss), dx, dy)
  {
    if ss != [] {
      var n := |ss| - 1;
      var init, rinit := ss[..n], r[..n];
      assert forall i :: 0 <= i < n ==> init[..i] == ss[..i] && init[i] == ss[i] && rinit[i] == r[i];
      ReplayTranslated(init, rinit, dx, dy);
      var t := Replay(init);
      if t.completed {
        GroupShifted(ss[n], r[n], dx, dy);
        ShiftConcat(t.commands, Group(ss[n]), dx, dy);
      }
    }
  }

  /**
   * Translation moves the picture rigidly: rendering the translated list
   * makes the same calls as rendering the original, each moved by (dx, dy),
   * and throws at the same place.
   */
  lemma RenderTranslated(ss: seq<Shape>, dx: real, dy: real)
    ensures Render(TransformAll(TranslationMatrix(dx, dy), ss)) == ShiftTrace(Render(ss), dx, dy)
  {
    var r := TransformAll(TranslationMatrix(dx, dy), ss);
    TransformAllAt(TranslationMatrix(dx, dy), ss);
    forall i | 0 <= i < |ss| && Replay(ss[..i]).completed
      ensures Outline(r[i]) == ShiftTrace(Outline(ss[i]), dx, dy)
    {
      OutlineTranslatedAt(ss, dx, dy, i);
    }
    ReplayTranslated(ss, r, dx, dy);
    ShiftConcat([ClearRect], Replay(ss).commands, dx, dy);
  }

  /** The shape at `i`, reached by a renderer that has not thrown, is drawn moved by (dx, dy). */
  lemma OutlineTranslatedAt(ss: seq<Shape>, dx: real, dy: real, i: nat)
    requires i < |ss| && Replay(ss[..i]).completed
    ensures Outline(TransformAll(TranslationMatrix(dx, dy), ss)[i]) == ShiftTrace(Outline(ss[i]), dx, dy)
  {
    CompletedBeforeCentreless(ss, i);
    TransformAllIndex(TranslationMatrix(dx, dy), ss, i);
    if i < FirstCentreless(ss) {
      TranslatedShapeOutline(ss[i], dx, dy);
    } else {
      assert Centreless(ss[i]);
      CentrelessOutline(ss[i], dx, dy);
    }
  }

  /** A centre-less circle throws before drawing anything, moved or not. */
  lemma CentrelessOutline(s: Shape, dx: real, dy: real)
    requires Centreless(s)
    ensures Outline(s) == ShiftTrace(Outline(s), dx, dy) == Trace([], false)
  {
  }

  /** A renderer that got through `ss[..i]` without throwing met no centre-less circle there. */
  lemma CompletedBeforeCentreless(ss: seq<Shape>, i: nat)
    requires i <= |ss| && Replay(ss[..i]).completed
    ensures i <= FirstCentreless(ss)
  {
    var pre := ss[..i];
    RenderCompletes(pre);
    forall j | 0 <= j < i
      ensures !Centreless(ss[j])
    {
      assert pre[j] == ss[j] && Drawable(pre[j]);
    }
  }

  /** Transforming a shape by a translation matrix moves its outline by the same offset. */
  lemma TranslatedShapeOutline(s: Shape, dx: real, dy: real)
    requires !Centreless(s)
    ensures Outline(TransformShape(TranslationMatrix(dx, dy), s)) == ShiftTrace(Outline(s), dx, dy)
  {
    TranslateShapeMeaning(s, dx, dy);
    OutlineTranslated(s, dx, dy);
  }

  /** One step of the renderer's loop past a prefix drawn without throwing. */
  lemma ReplayStep(ss: seq<Shape>, i: nat, path: seq<Command>, ok: bool)
    requires i < |ss| && Replay(ss[..i]).completed
    requires Trace(path, ok) == Outline(ss[i])
    ensures Replay(ss[..i + 1]) ==
      Trace(Replay(ss[..i]).commands + [BeginPath] + path + (if ok then [Stroke] else []), ok)
  {
    assert ss[..i + 1][..i] == ss[..i];
  }

  /** The loop of redrawShapes, issuing one call at a time. */
  method RedrawShapes(shapes: seq<Shape>) returns (t: Trace)
    ensures t == Render(shapes)
  {
    var calls := [ClearRect];
    var i := 0;
    while i < |shapes|
      invariant 0 <= i <= |shapes|
      invariant Replay(shapes[..i]).completed
      invariant calls == [ClearRect] + Replay(shapes[..i]).commands
    {
      var path, ok := StrokeOutline(shapes[i]);
      ReplayStep(shapes, i, path, ok);
      ghost var done := Replay(shapes[..i]).commands;
      calls := calls + [BeginPath] + path;
      assert calls == [ClearRect] + (done + [BeginPath] + path);
      if !ok {
        ReplayStuck(shapes, i + 1);
        return Trace(calls, false);
      }
      calls := calls + [Stroke];
      i := i + 1;
    }
    assert shapes[..i] == shapes;
    return Trace(calls, true);
  }

  /**
   * The body of the renderer's loop for one shape: the calls it makes after
   * `beginPath`, and false if it then throws on a missing point or centre.
   */
  method StrokeOutline(s: Shape) returns (path: seq<Command>, ok: bool)
    ensures Trace(path, ok) == Outline(s)
  {
    var p := s.points;
    path, ok := [], true;
    if s.kind == Line {
      if |p| < 1 {
        ok := false;
      } else {
        path := [MoveTo(p[0])];
        if |p| < 2 { ok := false; } else { path := path + [LineTo(p[1])]; }
      }
    } else if s.kind == Rectangle {
      if |p| < 2 {
        ok := false;
      } else {
        var w := p[1].x - p[0].x;
        var h := p[1].y - p[0].y;
        path := [Rect(p[0].x, p[0].y, w, h)];
      }
    } else if s.kind == Triangle {
      if |p| < 1 {
        ok := false;
      } else {
        path := [MoveTo(p[0])];
        if |p| < 2 {
          ok := false;
        } else {
          path := path + [LineTo(p[1])];
          if |p| < 3 { ok := false; } else { path := path + [LineTo(p[2]), ClosePath]; }
        }
      }
    } else if s.kind == Polygon {
      if |p| < 1 {
        ok := false;
      } else {
        path := PolygonPath(p);
      }
    } else {
      if s.center.None? {
        ok := false;
      } else {
        path := [Arc(s.center.value, s.radius)];
      }
    }
  }

  /** The polygon branch: `moveTo` the first vertex, `lineTo` each later one, `closePath`. */
  method PolygonPath(p: seq<Point>) returns (path: seq<Command>)
    requires |p| >= 1
    ensures |path| == |p| + 1 && path[0] == MoveTo(p[0]) && path[|p|] == ClosePath
    ensures forall i :: 1 <= i < |p| ==> path[i] == LineTo(p[i])
  {
    path := [MoveTo(p[0])];
    var j := 1;
    while j < |p|
      invariant 1 <= j <= |p|
      invariant |path| == j && path[0] == MoveTo(p[0])
      invariant forall i :: 1 <= i < j ==> path[i] == LineTo(p[i])
    {
      path := path + [LineTo(p[j])];
      j := j + 1;
    }
    path := path + [ClosePath];
  }

  /**
   * The path drawShape strokes during a drag for the anchor `start` and the
   * pointer at `release`; a circle with no recorded centre strokes an empty
   * path.
   */
  function PreviewOutline(kind: Kind, start: Point, center: Option<Point>, release: Point, hypot: real): seq<Command>
    requires kind != Polygon
  {
    match kind
    case Line => [MoveTo(start), LineTo(release)]
    case Rectangle => [Rect(start.x, start.y, release.x - start.x, release.y - start.y)]
    case Triangle =>
      var midX := (start.x + release.x) / 2.0;
      var height := Abs(release.y - start.y);
      [MoveTo(start), LineTo(release), LineTo(Point(midX, start.y - height)), ClosePath]
    case Circle => if center.Some? then [Arc(center.value, hypot)] else []
  }

  /**
   * The preview shows what the mouse-up will commit: for every kind except a
   * circle with no recorded centre, the previewed path is the outline the
   * renderer will stroke for the shape finalizeShape stores.
   */
  lemma PreviewMatchesCommit(kind: Kind, start: Point, center: Option<Point>, release: Point, hypot: real)
    requires kind != Polygon
    requires kind == Circle ==> center.Some?
    ensures var s := ReleasedShape(kind, Some(start), center, release, hypot);
      Drawable(s) && Outline(s).commands == PreviewOutline(kind, start, center, release, hypot)
  {
  }
}
