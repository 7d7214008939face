/**
 * The octant clipping of the heart and dental viewers: the scene bounds, the
 * clip planes built from the six hide flags, and their application to every
 * segment's mapper. A mapper keeps the points on the side its plane normals
 * point to.
 */
module Clipping {
  import opened Geometry
  import opened Scene

  /** The clipping dialog's parameters: fractions along each axis and six hide flags. */
  datatype ClipParams = ClipParams(xPos: real, yPos: real, zPos: real,
                                   hideLeft: bool, hideRight: bool, hideFront: bool,
                                   hideBack: bool, hideBottom: bool, hideTop: bool)

  predicate WellFormedBox(b: Box) { b.xmin <= b.xmax && b.ymin <= b.ymax && b.zmin <= b.zmax }

  /** The actors' world bounds, in registry order. */
  function ActorBoxes(sc: Scene): (bs: seq<Box>)
    requires WellFormed(sc)
    ensures |bs| == |sc.order|
    ensures forall i :: 0 <= i < |bs| ==> bs[i] == sc.segs[sc.order[i]].actorBounds
  {
    seq(|sc.order|, i requires 0 <= i < |sc.order| => sc.segs[sc.order[i]].actorBounds)
  }

  /** An axis of zero extent is widened by 1 at its upper end. */
  function Widen(lo: real, hi: real): real { if lo == hi then hi + 1.0 else hi }

  /**
   * The heart viewer's `get_scene_bounds`: [-1, 1] on every axis without
   * actors, else the union of the actors' bounds with every degenerate axis
   * widened by 1.
   */
  function CardioSceneBounds(sc: Scene): (b: Box)
    requires WellFormed(sc)
    ensures |sc.order| == 0 ==> b == Box(-1.0, 1.0, -1.0, 1.0, -1.0, 1.0)
    ensures forall i :: 0 <= i < |sc.order| ==> Inside(sc.segs[sc.order[i]].actorBounds, b)
    ensures (forall i :: 0 <= i < |sc.order| ==> WellFormedBox(sc.segs[sc.order[i]].actorBounds)) ==>
      b.xmin < b.xmax && b.ymin < b.ymax && b.zmin < b.zmax
  {
    var bs := ActorBoxes(sc);
    if |bs| == 0 then Box(-1.0, 1.0, -1.0, 1.0, -1.0, 1.0)
    else
      WidenedUnion(bs);
      WidenUnion(UnionAll(bs))
  }

  /** The union with every flat axis widened by 1 at its upper end. */
  function WidenUnion(u: Box): Box {
    Box(u.xmin, Widen(u.xmin, u.xmax), u.ymin, Widen(u.ymin, u.ymax), u.zmin, Widen(u.zmin, u.zmax))
  }

  /** The widened union still holds every box, and has volume when the boxes are well formed. */
  lemma WidenedUnion(bs: seq<Box>)
    requires |bs| > 0
    ensures forall i :: 0 <= i < |bs| ==> Inside(bs[i], WidenUnion(UnionAll(bs)))
    ensures (forall i :: 0 <= i < |bs| ==> WellFormedBox(bs[i])) ==>
      var b := WidenUnion(UnionAll(bs)); b.xmin < b.xmax && b.ymin < b.ymax && b.zmin < b.zmax
  {
    var u := UnionAll(bs);
    assert Inside(bs[0], u);
  }

  /** The dental viewer's bounds: the unit cube without actors, else the plain union. */
  function DentalSceneBounds(sc: Scene): (b: Box)
    requires WellFormed(sc)
    ensures |sc.order| == 0 ==> b == Box(0.0, 1.0, 0.0, 1.0, 0.0, 1.0)
    ensures |sc.order| > 0 ==> b == UnionAll(ActorBoxes(sc))
    ensures forall i :: 0 <= i < |sc.order| ==> Inside(sc.segs[sc.order[i]].actorBounds, b)
  {
    var bs := ActorBoxes(sc);
    if |bs| == 0 then Box(0.0, 1.0, 0.0, 1.0, 0.0, 1.0) else UnionAll(bs)
  }

  /** `min + frac * (max - min)`. */
  function Lerp(lo: real, hi: real, frac: real): real { lo + frac * (hi - lo) }

  lemma LerpWithin(lo: real, hi: real, frac: real)
    requires lo <= hi && 0.0 <= frac <= 1.0
    ensures lo <= Lerp(lo, hi, frac) <= hi
  {
    MulNonneg(frac, hi - lo);
    MulNonneg(1.0 - frac, hi - lo);
  }

  /** The plane for one flag, or nothing. */
  function PlaneIf(flag: bool, p: Plane): seq<Plane> { if flag then [p] else [] }

  /**
   * The planes of `apply_advanced_clipping`, in flag order: left, right,
   * front, back, bottom, top. Each keeps the side its normal points to.
   */
  function ClipPlanes(b: Box, p: ClipParams): (ps: seq<Plane>)
    ensures |ps| == Count(p)
    ensures |ps| == 0 <==> NoFlag(p)
  {
    var x := Lerp(b.xmin, b.xmax, p.xPos);
    var y := Lerp(b.ymin, b.ymax, p.yPos);
    var z := Lerp(b.zmin, b.zmax, p.zPos);
    PlaneIf(p.hideLeft, Plane(Vec3(x, 0.0, 0.0), Vec3(1.0, 0.0, 0.0)))
    + PlaneIf(p.hideRight, Plane(Vec3(x, 0.0, 0.0), Vec3(-1.0, 0.0, 0.0)))
    + PlaneIf(p.hideFront, Plane(Vec3(0.0, y, 0.0), Vec3(0.0, 1.0, 0.0)))
    + PlaneIf(p.hideBack, Plane(Vec3(0.0, y, 0.0), Vec3(0.0, -1.0, 0.0)))
    + PlaneIf(p.hideBottom, Plane(Vec3(0.0, 0.0, z), Vec3(0.0, 0.0, 1.0)))
    + PlaneIf(p.hideTop, Plane(Vec3(0.0, 0.0, z), Vec3(0.0, 0.0, -1.0)))
  }

  function B2I(b: bool): nat { if b then 1 else 0 }

  /** The number of hide flags that are set. */
  function Count(p: ClipParams): nat {
    B2I(p.hideLeft) + B2I(p.hideRight) + B2I(p.hideFront) + B2I(p.hideBack) + B2I(p.hideBottom) + B2I(p.hideTop)
  }

  predicate NoFlag(p: ClipParams) {
    !p.hideLeft && !p.hideRight && !p.hideFront && !p.hideBack && !p.hideBottom && !p.hideTop
  }

  /** A point survives a plane when it lies on the side the normal points to. */
  predicate KeptBy(pl: Plane, q: Vec3) { Dot(pl.normal, Sub(q, pl.origin)) >= 0.0 }

  /** A point survives a clip set when every plane keeps it. */
  predicate Kept(ps: seq<Plane>, q: Vec3) { forall i :: 0 <= i < |ps| ==> KeptBy(ps[i], q) }

  /**
   * What the planes mean: a point is shown exactly when it is on the kept
   * side of every requested cut, hiding left keeping `x >= x_pos`, right
   * `x <= x_pos`, front `y >= y_pos`, back `y <= y_pos`, bottom `z >= z_pos`
   * and top `z <= z_pos`.
   */
  lemma ClipPlanesMeaning(b: Box, p: ClipParams, q: Vec3)
    ensures var x := Lerp(b.xmin, b.xmax, p.xPos);
      var y := Lerp(b.ymin, b.ymax, p.yPos);
      var z := Lerp(b.zmin, b.zmax, p.zPos);
      Kept(ClipPlanes(b, p), q) <==>
        (p.hideLeft ==> q.x >= x) && (p.hideRight ==> q.x <= x) &&
        (p.hideFront ==> q.y >= y) && (p.hideBack ==> q.y <= y) &&
        (p.hideBottom ==> q.z >= z) && (p.hideTop ==> q.z <= z)
  {
    var x := Lerp(b.xmin, b.xmax, p.xPos);
    var y := Lerp(b.ymin, b.ymax, p.yPos);
    var z := Lerp(b.zmin, b.zmax, p.zPos);
    var l := PlaneIf(p.hideLeft, Plane(Vec3(x, 0.0, 0.0), Vec3(1.0, 0.0, 0.0)));
    var r := PlaneIf(p.hideRight, Plane(Vec3(x, 0.0, 0.0), Vec3(-1.0, 0.0, 0.0)));
    var f := PlaneIf(p.hideFront, Plane(Vec3(0.0, y, 0.0), Vec3(0.0, 1.0, 0.0)));
    var k := PlaneIf(p.hideBack, Plane(Vec3(0.0, y, 0.0), Vec3(0.0, -1.0, 0.0)));
    var d := PlaneIf(p.hideBottom, Plane(Vec3(0.0, 0.0, z), Vec3(0.0, 0.0, 1.0)));
    var t := PlaneIf(p.hideTop, Plane(Vec3(0.0, 0.0, z), Vec3(0.0, 0.0, -1.0)));
    assert ClipPlanes(b, p) == l + r + f + k + d + t;
    KeptIf(p.hideLeft, Plane(Vec3(x, 0.0, 0.0), Vec3(1.0, 0.0, 0.0)), q);
    KeptIf(p.hideRight, Plane(Vec3(x, 0.0, 0.0), Vec3(-1.0, 0.0, 0.0)), q);
    KeptIf(p.hideFront, Plane(Vec3(0.0, y, 0.0), Vec3(0.0, 1.0, 0.0)), q);
    KeptIf(p.hideBack, Plane(Vec3(0.0, y, 0.0), Vec3(0.0, -1.0, 0.0)), q);
    KeptIf(p.hideBottom, Plane(Vec3(0.0, 0.0, z), Vec3(0.0, 0.0, 1.0)), q);
    KeptIf(p.hideTop, Plane(Vec3(0.0, 0.0, z), Vec3(0.0, 0.0, -1.0)), q);
    AxisPlanes(x, y, z, q);
    KeptConcat(l, r, q);
    KeptConcat(l + r, f, q);
    KeptConcat(l + r + f, k, q);
    KeptConcat(l + r + f + k, d, q);
    KeptConcat(l + r + f + k + d, t, q);
  }

  /** The side each axis-aligned plane keeps. */
  lemma AxisPlanes(x: real, y: real, z: real, q: Vec3)
    ensures KeptBy(Plane(Vec3(x, 0.0, 0.0), Vec3(1.0, 0.0, 0.0)), q) <==> q.x >= x
    ensures KeptBy(Plane(Vec3(x, 0.0, 0.0), Vec3(-1.0, 0.0, 0.0)), q) <==> q.x <= x
    ensures KeptBy(Plane(Vec3(0.0, y, 0.0), Vec3(0.0, 1.0, 0.0)), q) <==> q.y >= y
    ensures KeptBy(Plane(Vec3(0.0, y, 0.0), Vec3(0.0, -1.0, 0.0)), q) <==> q.y <= y
    ensures KeptBy(Plane(Vec3(0.0, 0.0, z), Vec3(0.0, 0.0, 1.0)), q) <==> q.z >= z
    ensures KeptBy(Plane(Vec3(0.0, 0.0, z), Vec3(0.0, 0.0, -1.0)), q) <==> q.z <= z
  {
  }

  lemma KeptIf(flag: bool, pl: Plane, q: Vec3)
    ensures Kept(PlaneIf(flag, pl), q) <==> (flag ==> KeptBy(pl, q))
  {
    if flag { assert PlaneIf(flag, pl)[0] == pl; }
  }

  lemma KeptConcat(a: seq<Plane>, b: seq<Plane>, q: Vec3)
    ensures Kept(a + b, q) <==> Kept(a, q) && Kept(b, q)
  {
    if Kept(a, q) && Kept(b, q) {
      forall i | 0 <= i < |a + b| ensures KeptBy((a + b)[i], q) {
        if i >= |a| { assert (a + b)[i] == b[i - |a|]; }
      }
    }
    if Kept(a + b, q) {
      forall i | 0 <= i < |b| ensures KeptBy(b[i], q) {
        assert (a + b)[|a| + i] == b[i];
      }
      forall i | 0 <= i < |a| ensures KeptBy(a[i], q) {
        assert (a + b)[i] == a[i];
      }
    }
  }

  /** Every segment's mapper gets the clip set, or loses all planes when it is empty. */
  function ClipAll(sc: Scene, ps: seq<Plane>): (r: Scene)
    ensures r.order == sc.order && r.segs.Keys == sc.segs.Keys
    ensures forall n :: n in sc.segs ==>
      r.segs[n] == sc.segs[n].(clip := if |ps| > 0 then Planes(ps) else NoClip)
  {
    SetClipAll(sc, if |ps| > 0 then Planes(ps) else NoClip)
  }

  /** The heart viewer's `apply_advanced_clipping` (cardiovascular_system.py:2397-2433). */
  function CardioApplyClipping(sc: Scene, p: ClipParams): (r: Scene)
    requires WellFormed(sc)
    ensures r == ClipAll(sc, ClipPlanes(CardioSceneBounds(sc), p))
    ensures NoFlag(p) ==> forall n :: n in sc.segs ==> r.segs[n].clip == NoClip
  {
    ClipAll(sc, ClipPlanes(CardioSceneBounds(sc), p))
  }

  /**
   * The dental viewer's `apply_advanced_clipping` (dental_system.py:2303-2367):
   * each mapper first loses all planes, then gets the clip set if it is not
   * empty.
   */
  function DentalApplyClipping(sc: Scene, p: ClipParams): (r: Scene)
    requires WellFormed(sc)
    ensures r.order == sc.order && r.segs.Keys == sc.segs.Keys
    ensures NoFlag(p) ==> forall n :: n in sc.segs ==> r.segs[n].clip == NoClip
  {
    ClearThenClip(sc, ClipPlanes(DentalSceneBounds(sc), p))
  }

  /** Clearing every mapper and then installing a non-empty clip set is one `ClipAll`. */
  function ClearThenClip(sc: Scene, ps: seq<Plane>): (r: Scene)
    ensures r == ClipAll(sc, ps)
  {
    var cleared := sc.(segs := map n | n in sc.segs :: sc.segs[n].(clip := NoClip));
    var r := cleared.(segs := map n | n in cleared.segs ::
      if |ps| > 0 then cleared.segs[n].(clip := Planes(ps)) else cleared.segs[n]);
    assert r.segs == ClipAll(sc, ps).segs;
    r
  }

  /**
   * The two viewers cut alike: with at least one actor and no flat axis in
   * the scene bounds, they install the same planes on every segment.
   */
  lemma ClippingViewersAgree(sc: Scene, p: ClipParams)
    requires WellFormed(sc) && |sc.order| > 0
    requires var u := UnionAll(ActorBoxes(sc)); u.xmin != u.xmax && u.ymin != u.ymax && u.zmin != u.zmax
    ensures DentalApplyClipping(sc, p) == CardioApplyClipping(sc, p)
  {
    assert CardioSceneBounds(sc) == DentalSceneBounds(sc);
  }
}
