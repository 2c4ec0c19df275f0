/**
 * Vector and matrix helpers of the drawing program: `vec2`, `vec3`, `mat3`
 * and `mult` from the MV.js library, re-defined here over reals with the
 * row-major layout that `mat3(a, b, c, d, e, f, g, h, i)` uses, plus the
 * matrices that translateShape, scaleShape and rotateShape build.
 */
module Geometry {

  /** A canvas point, the value `vec2(x, y)` builds. */
  datatype Point = Point(x: real, y: real)

  /** A homogeneous coordinate, the value `vec3(x, y, w)` builds. */
  datatype Vec3 = Vec3(x: real, y: real, w: real)

  /** A 3x3 matrix given by its three rows. */
  datatype Mat3 = Mat3(r0: Vec3, r1: Vec3, r2: Vec3)

  function Dot(u: Vec3, v: Vec3): real
  {
    u.x * v.x + u.y * v.y + u.w * v.w
  }

  /** `mult(m, v)`: the matrix applied to the column vector `v`. */
  function Mult(m: Mat3, v: Vec3): Vec3
  {
    Vec3(Dot(m.r0, v), Dot(m.r1, v), Dot(m.r2, v))
  }

  /** The matrix product `a * b`: applying it is applying `b`, then `a`. */
  function MatMul(a: Mat3, b: Mat3): Mat3
  {
    var c0 := Vec3(b.r0.x, b.r1.x, b.r2.x);
    var c1 := Vec3(b.r0.y, b.r1.y, b.r2.y);
    var c2 := Vec3(b.r0.w, b.r1.w, b.r2.w);
    Mat3(Vec3(Dot(a.r0, c0), Dot(a.r0, c1), Dot(a.r0, c2)),
         Vec3(Dot(a.r1, c0), Dot(a.r1, c1), Dot(a.r1, c2)),
         Vec3(Dot(a.r2, c0), Dot(a.r2, c1), Dot(a.r2, c2)))
  }

  /** A matrix whose bottom row is (0, 0, 1): it keeps the homogeneous coordinate at 1. */
  predicate IsAffine(m: Mat3)
  {
    m.r2 == Vec3(0.0, 0.0, 1.0)
  }

  /**
   * What applyTransform does to one point: lift it to (x, y, 1), multiply,
   * and keep the first two coordinates of the product (no division by w).
   */
  function Apply(m: Mat3, p: Point): Point
  {
    var v := Mult(m, Vec3(p.x, p.y, 1.0));
    Point(v.x, v.y)
  }

  /** `mat3()` with no arguments: the identity, the `transform` of every new shape. */
  function Identity(): (m: Mat3)
    ensures IsAffine(m)
    ensures forall p :: Apply(m, p) == p
  {
    Mat3(Vec3(1.0, 0.0, 0.0), Vec3(0.0, 1.0, 0.0), Vec3(0.0, 0.0, 1.0))
  }

  /** The matrix of translateShape(dx, dy). */
  function TranslationMatrix(dx: real, dy: real): (m: Mat3)
    ensures IsAffine(m)
    ensures forall p :: Apply(m, p) == Point(p.x + dx, p.y + dy)
  {
    Mat3(Vec3(1.0, 0.0, dx), Vec3(0.0, 1.0, dy), Vec3(0.0, 0.0, 1.0))
  }

  /** The matrix of scaleShape(sx, sy); zero and negative factors are accepted. */
  function ScaleMatrix(sx: real, sy: real): (m: Mat3)
    ensures IsAffine(m)
    ensures forall p :: Apply(m, p) == Point(sx * p.x, sy * p.y)
  {
    Mat3(Vec3(sx, 0.0, 0.0), Vec3(0.0, sy, 0.0), Vec3(0.0, 0.0, 1.0))
  }

  /**
   * The matrix of rotateShape, with `c` and `s` standing for the cosine and
   * sine that the source computes; nothing here relates them to an angle.
   */
  function RotationMatrix(c: real, s: real): (m: Mat3)
    ensures IsAffine(m)
    ensures forall p :: Apply(m, p) == Point(c * p.x - s * p.y, s * p.x + c * p.y)
  {
    Mat3(Vec3(c, -s, 0.0), Vec3(s, c, 0.0), Vec3(0.0, 0.0, 1.0))
  }

  /** Applying a product is applying its factors in turn, when the right factor is affine. */
  lemma ApplyMatMul(a: Mat3, b: Mat3, p: Point)
    requires IsAffine(b)
    ensures Apply(MatMul(a, b), p) == Apply(a, Apply(b, p))
  {
    var q := Apply(b, p);
    var v := Vec3(p.x, p.y, 1.0);
    assert Mult(b, v) == Vec3(q.x, q.y, 1.0);
    var ab := MatMul(a, b);
    assert Dot(ab.r0, v) == Dot(a.r0, Mult(b, v));
    assert Dot(ab.r1, v) == Dot(a.r1, Mult(b, v));
  }

  /** The product of affine matrices is affine. */
  lemma MatMulAffine(a: Mat3, b: Mat3)
    requires IsAffine(a) && IsAffine(b)
    ensures IsAffine(MatMul(a, b))
  {
  }

  /** Translating by (-dx, -dy) undoes translating by (dx, dy). */
  lemma TranslationInverse(dx: real, dy: real)
    ensures MatMul(TranslationMatrix(-dx, -dy), TranslationMatrix(dx, dy)) == Identity()
  {
  }

  /** Two translations compound into one by the summed offsets. */
  lemma TranslationsAccumulate(dx1: real, dy1: real, dx2: real, dy2: real)
    ensures MatMul(TranslationMatrix(dx2, dy2), TranslationMatrix(dx1, dy1))
         == TranslationMatrix(dx1 + dx2, dy1 + dy2)
  {
    var a, b := TranslationMatrix(dx2, dy2), TranslationMatrix(dx1, dy1);
    var c2 := Vec3(b.r0.w, b.r1.w, b.r2.w);
    assert c2 == Vec3(dx1, dy1, 1.0);
    assert Dot(a.r0, c2) == dx1 + dx2;
    assert Dot(a.r1, c2) == dy1 + dy2;
  }

  /** Two scalings compound into one by the product of the factors. */
  lemma ScalesAccumulate(sx1: real, sy1: real, sx2: real, sy2: real)
    ensures MatMul(ScaleMatrix(sx2, sy2), ScaleMatrix(sx1, sy1)) == ScaleMatrix(sx1 * sx2, sy1 * sy2)
  {
  }

  /**
   * Two rotations compound into one whose cosine and sine are given by the
   * angle-addition formulas, stated on the (c, s) pairs alone.
   */
  lemma RotationsAccumulate(c1: real, s1: real, c2: real, s2: real)
    ensures MatMul(RotationMatrix(c2, s2), RotationMatrix(c1, s1))
         == RotationMatrix(c1 * c2 - s1 * s2, s1 * c2 + c1 * s2)
  {
  }
}
