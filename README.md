# cad1 drawing session, modelled in Dafny

cad1.js is a small browser drawing program. The user picks one of five
primitives ("line", "rectangle", "triangle", "polygon", "circle") and
draws with the mouse on a canvas:

- a drag commits a line, a rectangle, a triangle or a circle;
- clicks collect polygon vertices, and a button commits the polygon;
- three buttons translate, scale or rotate every stored shape by a
  homogeneous 3x3 matrix;
- a fourth button clears everything.

After every change the program replays the whole shape list onto the
canvas.

The project models, over real numbers:

- **Geometry** (`geometry.dfy`): points, homogeneous vectors and row-major
  3x3 matrices standing for the MV.js helpers `vec2`, `vec3`, `mat3` and
  `mult`. It also holds the matrices of translateShape, scaleShape and
  rotateShape, and how products of those matrices compound.
- **Shapes** (`shapes.dfy`): the stored shape record and the geometry a
  mouse-up or completePolygon gives a new shape. This covers the
  triangle's derived third vertex and the circle radius. The radius is
  specified by `r >= 0 && r*r == dx*dx + dy*dy` instead of being computed
  with `Math.sqrt`. `Committed` describes every shape the session can
  hold.
- **Transform** (`transform.dfy`): what applyTransform does to the shape
  list, as the function `TransformAll`, with its preservation, identity,
  composition and round-trip lemmas.
- **Renderer** (`render.dfy`): redrawShapes as the list of canvas calls it
  makes (`Render`), the loop that issues them (`RedrawShapes`), and the
  preview path of drawShape. Translating the shapes moves the rendered
  picture rigidly.
- **Session** (`session.dfy`): the module-level state of cad1.js (lines
  6-11) as the fields of the class `DrawingSession`. Each event handler is
  a method that updates those fields in place and returns the canvas calls
  it makes.

A JavaScript handler can throw a TypeError when it reads a point or a
centre that a shape does not have. `Trace(commands, completed)` records
the calls made up to that point. `completed == false` means the handler
threw right after the last call listed.

In the model, which requires an anchor at every mouse-up that builds the
generic record (see the
`Session.DrawingSession.FinalizeShape` line under "## Left out"), that
happens only through a circle committed without a centre, and
`Renderer.CommittedRenderCompletes` proves it:

- the mouse-up branch for "circle" at cad1.js:80 needs a recorded centre;
- without one, the mouse-up falls through to the generic record at
  cad1.js:88-96, which has points but no `center`;
- that state arises, for example, when the kind is switched to "circle"
  in the middle of a drag (`Session.KindSwitchMidDrag` exhibits it), when
  the canvas is cleared during a "circle" drag (clearCanvas drops the
  centre but keeps the anchor, cad1.js:195-200), or on a second mouse-up
  after a circle was committed with no mouse-down between (the centre was
  dropped at cad1.js:83, the anchor kept);
- redrawShapes then throws at cad1.js:139, right after `beginPath`;
- applyTransform throws at cad1.js:149 after it has already moved the
  shapes before that circle.

The source itself has a second way to throw, which the model leaves out:
a mouse-up on the canvas before any mouse-down on it runs finalizeShape
with `startPoint === null`.

Three behaviours of the code that a reader might not expect, all kept in
the model, except that the model requires the anchor instead of storing
`null` (see the `Session.DrawingSession.FinalizeShape` line under
"## Left out"):

- A "circle" mouse-up with no recorded centre is not a no-op: it commits
  the generic record described above (cad1.js:80, 88-96).
- A kind change or a clear keeps `isDrawing` and `startPoint`
  (cad1.js:13-17, 195-200). Only the polygon vertices and the circle
  centre are dropped, and clearing also empties the shape list.
- finalizeShape checks neither that a drag is in progress nor that an
  anchor was recorded (cad1.js:74-98).

The model treats every coordinate as a value. The source never mutates a
`vec2` in place:

- applyTransform replaces `points[i]` and `center` with new vectors;
- completePolygon copies the pending list.

So the sharing of `startPoint` between a stored shape, `circleCenter`
and the pending vertices cannot be observed.

## Model

| member | source | states |
|---|---|---|
| Geometry.Identity | cad1.js:93 | `mat3()` is affine and maps every point to itself |
| Geometry.TranslationMatrix | cad1.js:164-171 | the translate matrix is affine and maps (x, y) to (x + dx, y + dy) |
| Geometry.ScaleMatrix | cad1.js:174-181 | the scale matrix is affine and maps (x, y) to (sx·x, sy·y) |
| Geometry.RotationMatrix | cad1.js:184-192 | the rotation matrix built from a cosine c and a sine s is affine and maps (x, y) to (c·x − s·y, s·x + c·y) |
| Geometry.Mult | cad1.js:150 | `mult(m, v)`: the matrix applied to a column vector, row by row |
| Geometry.Apply | cad1.js:149-156 | one point through applyTransform: lifted to `vec3(x, y, 1)`, multiplied, and cut back to `vec2` of the first two coordinates |
| Shapes.ReleasedShape | cad1.js:80-96 | the record finalizeShape pushes: the circle with centre and radius, or the generic record with `[start, release]` and a triangle's third vertex |
| Shapes.PolygonShape | cad1.js:102 | the record completePolygon pushes, holding the pending vertices |
| Transform.TransformShape | cad1.js:148-157 | one pass of applyTransform's loop body: a circle's centre, or every point of another shape, through `mult`; it keeps kind, point count, centre presence, radius and `transform` |
| Transform.TransformAll | cad1.js:146-159 | the list applyTransform leaves, including the partial rewrite before a throw at a centre-less circle; it has as many shapes as the original |
| Renderer.Drawable | cad1.js:120-139 | whether every point or centre that a shape's branch of redrawShapes reads exists |
| Renderer.Group | cad1.js:119-141 | one pass of redrawShapes' loop: `beginPath`, the outline and, if the branch did not throw, `stroke` |
| Renderer.Replay | cad1.js:118-142 | redrawShapes' loop over the list, stopping at the first throw |
| Renderer.Render | cad1.js:116-143 | redrawShapes: `clearRect`, then the loop; it starts with `clearRect` and completes exactly when the loop does |
| Renderer.PreviewOutline | cad1.js:53-70 | the path drawShape strokes during a drag |
| Geometry.ApplyMatMul | cad1.js:146-159 | for an affine right factor, transforming a point by a product, lifted to (x, y, 1), is transforming it by the two factors in turn |
| Geometry.MatMulAffine | cad1.js:146-159 | products of affine matrices are affine |
| Geometry.TranslationInverse | cad1.js:164-171 | the translation by (−dx, −dy) times the translation by (dx, dy) is the identity matrix |
| Geometry.TranslationsAccumulate | cad1.js:164-171 | two translation matrices multiply to the translation by the summed offsets |
| Geometry.ScalesAccumulate | cad1.js:174-181 | two scale matrices multiply to the scale by the products of the factors |
| Geometry.RotationsAccumulate | cad1.js:184-192 | two rotation matrices multiply to the rotation whose (c, s) follow the angle-addition formulas |
| Shapes.ThirdVertex | cad1.js:91 | the triangle's third vertex lies midway in x between anchor and release, and above the anchor by exactly `abs(y − sy)` |
| Shapes.TriangleExample | cad1.js:91 | anchor (0, 0) and release (10, 20) give third vertex (5, −20) |
| Shapes.HypotUnique | cad1.js:81 | the radius condition `r ≥ 0, r² = dx² + dy²` determines r uniquely |
| Shapes.HypotZero | cad1.js:81 | the radius is 0 exactly when the release point is the centre |
| Shapes.RadiusExample | cad1.js:81 | centre (5, 5) and release (9, 5) give radius exactly 4 |
| Shapes.ReleasedShapeGeometry | cad1.js:80-96 | a mouse-up stores a committed shape of the selected kind. A circle with a centre gets that centre and a radius with `r² = dx² + dy²`. Line, rectangle and centre-less circle get `[start, release]`. A triangle gets `[start, release, third vertex]` |
| Shapes.PolygonShapeCommitted | cad1.js:100-102 | a polygon from three or more pending vertices is a committed shape whose points are those vertices in order |
| Transform.FirstCentreless | cad1.js:147-151 | the position where applyTransform's loop throws: no centre-less circle before it, and one at it unless it is the end of the list |
| Transform.TransformAllAt | cad1.js:146-159 | applyTransform keeps the length; shape i is transformed if it comes before the first centre-less circle, and unchanged otherwise |
| Transform.TransformAllUpTo | cad1.js:146-159 | a list agreeing with the transformed shapes before the stopping point, and with the originals from it on, is the result of applyTransform |
| Transform.TransformPreserves | cad1.js:146-159 | applyTransform keeps the number, order and kind of the shapes, each point count, whether each has a centre, every radius and every `transform`; it maps each point or centre it reaches through `mult(M, (x, y, 1))` |
| Transform.TransformKeepsBreak | cad1.js:146-159 | after a transform the first centre-less circle is at the same position |
| Transform.TransformKeepsCommitted | cad1.js:146-159 | every shape the session can hold is still one after any transform |
| Transform.TransformIdentity | cad1.js:146-159 | transforming by the identity matrix changes no shape |
| Transform.TransformCompose | cad1.js:146-159 | transforming by b and then by a is transforming once by a·b, for affine b, including where the loop stops |
| Transform.TranslateShapeMeaning | cad1.js:164-171 | translateShape moves every point, or a circle's centre, by (dx, dy) |
| Transform.ScaleShapeMeaning | cad1.js:174-181 | scaleShape sends every point, or a circle's centre, to (sx·x, sy·y) and leaves the radius alone |
| Transform.TranslateRoundTrip | cad1.js:164-171 | translating by (dx, dy) and then by (−dx, −dy) restores every shape exactly |
| Transform.TranslationsCompound | cad1.js:164-171 | two translations of the list compound into one by the summed offsets |
| Renderer.Outline | cad1.js:119-140 | the calls of one shape's branch complete exactly when the shape has every point or centre its branch reads |
| Renderer.RenderCompletes | cad1.js:116-143 | redrawShapes runs to its end exactly when every stored shape is drawable |
| Renderer.CommittedDrawable | cad1.js:119-140 | a shape the session can hold fails to draw only when it is a circle with no centre |
| Renderer.CommittedRenderCompletes | cad1.js:116-143 | over shapes the session can hold, redrawShapes throws exactly when a centre-less circle is stored |
| Renderer.RenderInOrder | cad1.js:116-143 | with drawable shapes, redrawShapes clears the surface and then makes one `beginPath … stroke` group per shape, in list order |
| Renderer.RenderStopsAt | cad1.js:116-143 | at the first undrawable shape, redrawShapes has drawn the groups before it, begins its path, makes the calls its branch gets through and throws |
| Renderer.ReplayStuck | cad1.js:118-142 | once the loop has thrown, later shapes add no calls |
| Renderer.OutlineShapes | cad1.js:120-139 | a line is `moveTo p0, lineTo p1`. A rectangle is one `rect` at p0 whose signed width and height reach p1. A triangle is a closed path through its three points. A circle is `arc(center, radius)` |
| Renderer.PolygonOutline | cad1.js:132-137 | a polygon of n points is `moveTo` its first point, n − 1 `lineTo`s through the rest in order, and `closePath` |
| Renderer.OutlineTranslated | cad1.js:119-140 | the outline of a translated shape is its outline with every point and corner moved by (dx, dy) |
| Renderer.RenderTranslated | cad1.js:116-143 | redrawing after translateShape makes the calls of the redraw before, each moved by (dx, dy), and throws at the same place |
| Renderer.RedrawShapes | cad1.js:116-143 | the loop of redrawShapes makes exactly the calls of `Render` |
| Renderer.StrokeOutline | cad1.js:119-140 | one shape's branch makes exactly the calls of `Outline` and throws where `Outline` stops |
| Renderer.PolygonPath | cad1.js:133-137 | the polygon loop makes `moveTo`, one `lineTo` per later vertex, in order, and `closePath` |
| Renderer.PreviewMatchesCommit | cad1.js:53-96 | for every kind but a circle with no centre, the preview path of drawShape is the outline redrawShapes will give the shape the mouse-up stores |
| Session.DrawingSession.constructor | cad1.js:6-11 | a fresh session selects "line" and has no shapes, no drag, no anchor, no pending vertices and no centre |
| Session.DrawingSession.ChangeKind | cad1.js:13-17 | a kind change selects the new kind and drops the pending vertices and centre; shapes, drag flag and anchor are kept |
| Session.DrawingSession.StartDrawing | cad1.js:29-44 | mouse-down always records the anchor and never changes the shapes. For "polygon" it appends the vertex, keeps the drag flag and redraws. Otherwise it starts a drag, and for "circle" records the anchor as centre |
| Session.DrawingSession.FinalizeShape | cad1.js:74-98 | for "polygon" mouse-up changes nothing. Otherwise it ends the drag, drops the centre, appends exactly the shape `ReleasedShape` describes and redraws |
| Session.DrawingSession.CompletePolygon | cad1.js:100-106 | with three or more pending vertices it appends one polygon of them in order, empties the pending list and redraws; with fewer it changes nothing |
| Session.DrawingSession.ClearCanvas | cad1.js:195-200 | clearing empties shapes and pending vertices, drops the centre, keeps the kind, drag flag and anchor, and clears the surface |
| Session.DrawingSession.ApplyTransform | cad1.js:146-161 | the shapes become `TransformAll(m, shapes)`, the rest of the state is kept, and the list is redrawn unless the loop threw |
| Session.DrawingSession.TransformOne | cad1.js:148-158 | one pass of the loop body maps a circle's centre, or each point of another shape, through `mult(m, vec3(x, y, 1))` |
| Session.DrawingSession.TranslateShape | cad1.js:164-171 | applyTransform with the translation matrix |
| Session.DrawingSession.ScaleShape | cad1.js:174-181 | applyTransform with the scale matrix |
| Session.DrawingSession.RotateShape | cad1.js:184-192 | applyTransform with the rotation matrix of (c, s) |
| Session.DrawingSession.DrawShape | cad1.js:46-72 | outside a drag, or for "polygon", mouse-move does nothing. During a drag it clears, replays the shapes (clearing a second time) and strokes the outline the mouse-up would commit, or an empty path for a circle with no centre. It changes no state |
| Session.DragGestures | cad1.js:29-98 | N mouse-down/mouse-up gestures on a non-polygon kind append exactly N shapes of that kind after the ones already stored |
| Session.KindSwitchMidDrag | cad1.js:80-96 | starting a line drag, switching to "circle" and releasing commits a circle without a centre; the redraw throws right after its `beginPath` |

## Left out

- The DOM and the canvas: `getElementById`, `getContext`, the event listener wiring (cad1.js:3-4, 13-27) and `getMousePos` (cad1.js:108-114). Pointer coordinates are method parameters, and canvas calls are returned as a list instead of performed.
- The button handlers' fixed arguments (translate by 20, 20; scale by 1.2, 1.2; rotate by 15 degrees, cad1.js:21-23): the transform methods take any offsets, factors or cosine and sine.
- `Math.sqrt`: the circle radius is a parameter `hypot` that must satisfy `hypot ≥ 0` and `hypot² = dx² + dy²`.
- `Math.cos`, `Math.sin` and `radians` in rotateShape: the rotation takes its cosine and sine as two reals, with nothing claimed about an angle.
- Floating-point rounding: all coordinates are exact reals, so the round-trip and compounding lemmas hold exactly only in the model.
- Pixel output of `rect`, `arc` and `stroke`, including negative-width rectangles; and the arc's angle arguments, which are always 0 and 2π.
- Absent properties of the stored records: the circle record (cad1.js:82) has no `points`, and the generic and polygon records (cad1.js:88-94, 102) have no `center` or `radius`. The model's `Shape` has all three fields and fills the absent ones with placeholders (empty `points`, no centre, radius 0) that nothing reads.
- Primitive names other than the five kinds: the selector's options are not part of this model, so `Kind` is the closed set of five.
- Session.DrawingSession.FinalizeShape: requires a recorded anchor on the generic branch (`CanRelease`). On a mouse-up that had no mouse-down the source runs with `startPoint === null`: for a triangle it throws at cad1.js:91 before the push; for a line, a rectangle or a "circle" with no centre it stores `null` as the first point, after which every redrawShapes throws (cad1.js:121 or 124, or at the missing centre at cad1.js:139) and applyTransform throws at cad1.js:154 (or 149). Points are never null in the model, so none of this is captured.
- The propagation of a TypeError out of an event handler to the browser: a handler's trace simply ends with `completed == false`.
