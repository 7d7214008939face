/**
 * Vectors, affine transforms and bounding boxes over exact reals, following
 * the conventions of the rendering library the viewers drive: a transform
 * built by successive `Translate`/`RotateX` calls multiplies each new matrix
 * on the right, so the call written LAST is applied to a point FIRST.
 *
 * Trigonometric functions are not computed here: they arrive as a `Trig`
 * record of functions, and `TrigSane` states the few facts the model relies on.
 */
module Geometry {

  datatype Vec3 = Vec3(x: real, y: real, z: real)

  const Zero := Vec3(0.0, 0.0, 0.0)

  function Add(a: Vec3, b: Vec3): Vec3 { Vec3(a.x + b.x, a.y + b.y, a.z + b.z) }
  function Sub(a: Vec3, b: Vec3): Vec3 { Vec3(a.x - b.x, a.y - b.y, a.z - b.z) }
  function Scale(k: real, a: Vec3): Vec3 { Vec3(k * a.x, k * a.y, k * a.z) }
  function Neg(a: Vec3): Vec3 { Vec3(-a.x, -a.y, -a.z) }
  function Dot(a: Vec3, b: Vec3): real { a.x * b.x + a.y * b.y + a.z * b.z }

  /** `np.cross(a, b)`. */
  function Cross(a: Vec3, b: Vec3): (r: Vec3)
    ensures Dot(r, a) == 0.0 && Dot(r, b) == 0.0
  {
    Vec3(a.y * b.z - a.z * b.y, a.z * b.x - a.x * b.z, a.x * b.y - a.y * b.x)
  }

  /** A 3x3 matrix by rows. */
  datatype Mat3 = Mat3(r0: Vec3, r1: Vec3, r2: Vec3)

  const I3 := Mat3(Vec3(1.0, 0.0, 0.0), Vec3(0.0, 1.0, 0.0), Vec3(0.0, 0.0, 1.0))

  function MatVec(m: Mat3, v: Vec3): Vec3 {
    Vec3(Dot(m.r0, v), Dot(m.r1, v), Dot(m.r2, v))
  }

  function Col0(m: Mat3): Vec3 { Vec3(m.r0.x, m.r1.x, m.r2.x) }
  function Col1(m: Mat3): Vec3 { Vec3(m.r0.y, m.r1.y, m.r2.y) }
  function Col2(m: Mat3): Vec3 { Vec3(m.r0.z, m.r1.z, m.r2.z) }

  function Row(a: Vec3, b: Mat3): Vec3 { Vec3(Dot(a, Col0(b)), Dot(a, Col1(b)), Dot(a, Col2(b))) }

  function MatMul(a: Mat3, b: Mat3): Mat3 { Mat3(Row(a.r0, b), Row(a.r1, b), Row(a.r2, b)) }

  /** The affine map `x |-> m x + t` (a `vtkTransform` without projective part). */
  datatype Affine = Affine(m: Mat3, t: Vec3)

  const Identity := Affine(I3, Zero)

  function Apply(a: Affine, p: Vec3): Vec3 { Add(MatVec(a.m, p), a.t) }

  /** The transform that applies `b` first and then `a` (`a.Concatenate(b)`). */
  function Compose(a: Affine, b: Affine): Affine {
    Affine(MatMul(a.m, b.m), Add(MatVec(a.m, b.t), a.t))
  }

  function Translation(p: Vec3): Affine { Affine(I3, p) }

  /** `RotateX`, `RotateY`, `RotateZ` given the cosine and sine of the angle. */
  function RotX(c: real, s: real): Affine {
    Affine(Mat3(Vec3(1.0, 0.0, 0.0), Vec3(0.0, c, -s), Vec3(0.0, s, c)), Zero)
  }
  function RotY(c: real, s: real): Affine {
    Affine(Mat3(Vec3(c, 0.0, s), Vec3(0.0, 1.0, 0.0), Vec3(-s, 0.0, c)), Zero)
  }
  function RotZ(c: real, s: real): Affine {
    Affine(Mat3(Vec3(c, -s, 0.0), Vec3(s, c, 0.0), Vec3(0.0, 0.0, 1.0)), Zero)
  }

  lemma ApplyCompose(a: Affine, b: Affine, p: Vec3)
    ensures Apply(Compose(a, b), p) == Apply(a, Apply(b, p))
  {
  }

  /** `Translate(p); Rotate...; Translate(-p)`: a linear map `r` conjugated to act about `p`. */
  function About(p: Vec3, r: Affine): Affine {
    Compose(Translation(p), Compose(r, Translation(Neg(p))))
  }

  /** The conjugated map fixes its pivot whenever the inner map fixes the origin. */
  lemma AboutFixesPivot(p: Vec3, r: Affine)
    requires r.t == Zero
    ensures Apply(About(p, r), p) == p
  {
    ApplyCompose(Translation(p), Compose(r, Translation(Neg(p))), p);
    ApplyCompose(r, Translation(Neg(p)), p);
  }

  /** `T(c) S T(-c)` with `S` a uniform scale: the heart contraction transform. */
  function ScaleAbout(c: Vec3, k: real): (a: Affine)
    ensures Apply(a, c) == c
    ensures forall q :: Apply(a, q) == Add(c, Scale(k, Sub(q, c)))
  {
    var s := Affine(Mat3(Vec3(k, 0.0, 0.0), Vec3(0.0, k, 0.0), Vec3(0.0, 0.0, k)), Zero);
    AboutFixesPivot(c, s);
    forall q ensures Apply(About(c, s), q) == Add(c, Scale(k, Sub(q, c))) {
      ApplyCompose(Translation(c), Compose(s, Translation(Neg(c))), q);
      ApplyCompose(s, Translation(Neg(c)), q);
    }
    About(c, s)
  }

  /** Axis-aligned bounds `[xmin, xmax, ymin, ymax, zmin, zmax]`. */
  datatype Box = Box(xmin: real, xmax: real, ymin: real, ymax: real, zmin: real, zmax: real)

  function Center(b: Box): Vec3 {
    Vec3((b.xmin + b.xmax) / 2.0, (b.ymin + b.ymax) / 2.0, (b.zmin + b.zmax) / 2.0)
  }

  function Min(a: real, b: real): real { if a <= b then a else b }
  function Max(a: real, b: real): real { if a >= b then a else b }

  /** `vtkBoundingBox.AddBounds`: the smallest box holding both. */
  function Union(a: Box, b: Box): Box {
    Box(Min(a.xmin, b.xmin), Max(a.xmax, b.xmax), Min(a.ymin, b.ymin),
        Max(a.ymax, b.ymax), Min(a.zmin, b.zmin), Max(a.zmax, b.zmax))
  }

  predicate Inside(inner: Box, outer: Box) {
    outer.xmin <= inner.xmin && inner.xmax <= outer.xmax &&
    outer.ymin <= inner.ymin && inner.ymax <= outer.ymax &&
    outer.zmin <= inner.zmin && inner.zmax <= outer.zmax
  }

  /** The union of a non-empty list of boxes: the smallest box containing each. */
  function UnionAll(bs: seq<Box>): (u: Box)
    requires |bs| > 0
    ensures forall i :: 0 <= i < |bs| ==> Inside(bs[i], u)
    ensures exists i :: 0 <= i < |bs| && u.xmin == bs[i].xmin
    ensures exists i :: 0 <= i < |bs| && u.xmax == bs[i].xmax
  {
    if |bs| == 1 then bs[0]
    else
      var u := Union(UnionAll(bs[..|bs| - 1]), bs[|bs| - 1]);
      assert forall i :: 0 <= i < |bs| - 1 ==> bs[..|bs| - 1][i] == bs[i];
      u
  }

  /**
   * Trigonometry supplied from outside, in radians. `TrigSane` is all the model
   * assumes: the values at 0 and at pi, and that both functions stay in [-1, 1].
   */
  datatype Trig = Trig(pi: real, cos: real -> real, sin: real -> real)

  ghost predicate TrigSane(tr: Trig) {
    && tr.pi > 0.0
    && tr.cos(0.0) == 1.0 && tr.sin(0.0) == 0.0
    && tr.cos(tr.pi) == -1.0
    && (forall x :: -1.0 <= tr.cos(x) <= 1.0)
    && (forall x :: -1.0 <= tr.sin(x) <= 1.0)
  }

  /** Cosine and sine of an angle in degrees, as `RotateX` takes it. */
  function CosDeg(tr: Trig, d: real): real { tr.cos(d * tr.pi / 180.0) }
  function SinDeg(tr: Trig, d: real): real { tr.sin(d * tr.pi / 180.0) }

  /** `RotateX(d)` about the origin for an angle `d` in degrees. */
  function RotXDeg(tr: Trig, d: real): Affine { RotX(CosDeg(tr, d), SinDeg(tr, d)) }

  lemma RotXDegZero(tr: Trig)
    requires TrigSane(tr)
    ensures RotXDeg(tr, 0.0) == Identity
  {
    assert 0.0 * tr.pi / 180.0 == 0.0;
  }

  /** What the model needs of the square root: it maps [0, 1] into [0, 1]. */
  ghost predicate SqrtSane(sqrt: real -> real) {
    forall x :: 0.0 <= x <= 1.0 ==> 0.0 <= sqrt(x) <= 1.0
  }

  lemma MatVecI3(v: Vec3)
    ensures MatVec(I3, v) == v
  {
    assert Dot(Vec3(1.0, 0.0, 0.0), v) == v.x;
    assert Dot(Vec3(0.0, 1.0, 0.0), v) == v.y;
    assert Dot(Vec3(0.0, 0.0, 1.0), v) == v.z;
  }

  /** Where a map conjugated about `c` sends a point: `c + m (q - c)`. */
  lemma AboutApply(c: Vec3, r: Affine, q: Vec3)
    requires r.t == Zero
    ensures Apply(About(c, r), q) == Add(c, MatVec(r.m, Sub(q, c)))
  {
    ApplyCompose(Translation(c), Compose(r, Translation(Neg(c))), q);
    ApplyCompose(r, Translation(Neg(c)), q);
    MatVecI3(q);
    MatVecI3(MatVec(r.m, Sub(q, c)));
    assert Apply(Translation(Neg(c)), q) == Sub(q, c);
  }
}
