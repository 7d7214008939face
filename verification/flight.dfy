/**
 * Camera flights, shared by the four viewers: the keyframe list a
 * `vtkCameraInterpolator` holds, the authored tours of the heart and dental
 * viewers, the spiral dive at a picked point, and the timer tick that moves
 * the camera along the path and drags the "tunnel" clip plane with it.
 *
 * Spline interpolation, vector norms and `vtkMath::Perpendiculars` are not
 * computed here; they arrive as function parameters.
 */
module Flight {
  import opened Geometry
  import opened Scene
  import Focus

  datatype Camera = Camera(position: Vec3, focal: Vec3, viewUp: Vec3)

  /** A keyframe: a camera at a time in [0, 1]. */
  datatype Key = Key(time: real, cam: Camera)

  /** Key times strictly increase along the list. */
  ghost predicate Increasing(path: seq<Key>) {
    forall i, j :: 0 <= i < j < |path| ==> path[i].time < path[j].time
  }

  /** Neighbouring key times increase: the cheap form of `Increasing` for literal lists. */
  predicate Chained(path: seq<Key>) {
    |path| < 2 || (path[0].time < path[1].time && Chained(path[1..]))
  }

  lemma {:induction false} ChainedIncreasing(path: seq<Key>)
    requires Chained(path)
    ensures Increasing(path)
  {
    if |path| >= 2 {
      ChainedIncreasing(path[1..]);
      forall i, j | 0 <= i < j < |path| ensures path[i].time < path[j].time {
        if i > 0 {
          assert path[i] == path[1..][i - 1] && path[j] == path[1..][j - 1];
        } else if j > 1 {
          assert path[1] == path[1..][0] && path[j] == path[1..][j - 1];
        }
      }
    }
  }

  /**
   * `AddCamera(t, camera)`: the key goes in at its time, replacing a key
   * already at that time, so the list stays in time order.
   */
  function AddKey(path: seq<Key>, k: Key): (r: seq<Key>)
    requires Increasing(path)
    ensures Increasing(r) && r != []
    ensures r[0].time == if path == [] then k.time else Min(k.time, path[0].time)
  {
    if path == [] then [k]
    else if k.time < path[0].time then [k] + path
    else if k.time == path[0].time then [k] + path[1..]
    else
      var rest := AddKey(path[1..], k);
      assert path[1..] != [] ==> path[0].time < path[1].time;
      [path[0]] + rest
  }

  /** The list after `AddKey` holds exactly the new key and the old keys at other times. */
  lemma {:induction false} AddKeyContents(path: seq<Key>, k: Key)
    requires Increasing(path)
    ensures k in AddKey(path, k)
    ensures forall q :: q in AddKey(path, k) ==> q == k || (q in path && q.time != k.time)
    ensures forall q :: q in path && q.time != k.time ==> q in AddKey(path, k)
  {
    if path != [] && k.time > path[0].time {
      AddKeyContents(path[1..], k);
      assert path == [path[0]] + path[1..];
    } else if path != [] && k.time == path[0].time {
      assert forall q :: q in path[1..] ==> q.time != k.time;
      assert path == [path[0]] + path[1..];
    }
  }

  /** Both halves of an increasing list increase, and the first half ends before the second begins. */
  lemma IncreasingSplit(a: seq<Key>, b: seq<Key>)
    requires Increasing(a + b)
    ensures Increasing(a) && Increasing(b)
    ensures a != [] && b != [] ==> a[|a| - 1].time < b[0].time
  {
    assert forall i :: 0 <= i < |a| ==> (a + b)[i] == a[i];
    assert forall i :: 0 <= i < |b| ==> (a + b)[|a| + i] == b[i];
  }

  /** Dropping the first key keeps a list increasing. */
  lemma IncreasingTail(path: seq<Key>)
    requires Increasing(path) && path != []
    ensures Increasing(path[1..])
  {
    assert forall i :: 0 <= i < |path| - 1 ==> path[1..][i] == path[i + 1];
  }

  /** A key later than every key already present goes at the end. */
  lemma {:induction false} AddKeyAppends(path: seq<Key>, k: Key)
    requires Increasing(path)
    requires path != [] ==> path[|path| - 1].time < k.time
    ensures AddKey(path, k) == path + [k]
  {
    if path != [] {
      var tail := path[1..];
      IncreasingTail(path);
      assert path[0].time < k.time by {
        if |path| > 1 { assert path[0].time < path[|path| - 1].time; }
      }
      if tail != [] {
        assert tail[|tail| - 1] == path[|path| - 1];
      }
      AddKeyAppends(tail, k);
      assert AddKey(path, k) == [path[0]] + AddKey(tail, k);
    }
  }

  /** The cameras added one after another, in list order. */
  function AddAll(path: seq<Key>, keys: seq<Key>): (r: seq<Key>)
    requires Increasing(path)
    ensures Increasing(r)
    decreases |keys|
  {
    if keys == [] then path else AddAll(AddKey(path, keys[0]), keys[1..])
  }

  /** Adding keys that each come after the last one builds their concatenation. */
  lemma {:induction false} AddAllAppends(path: seq<Key>, keys: seq<Key>)
    requires Increasing(path + keys)
    ensures Increasing(path)
    ensures AddAll(path, keys) == path + keys
    decreases |keys|
  {
    IncreasingSplit(path, keys);
    if keys != [] {
      var p1 := path + [keys[0]];
      assert p1 + keys[1..] == path + keys;
      AddKeyAppends(path, keys[0]);
      AddAllAppends(p1, keys[1..]);
    }
  }

  /** The heart viewer's blood-flow tour (cardiovascular_system.py:2039-2051). */
  const CardioTour: seq<Key> := [
    Key(0.0, Camera(Vec3(0.0, 200.0, 50.0), Vec3(0.0, 0.0, 0.0), Vec3(0.0, 0.0, 1.0))),
    Key(0.1, Camera(Vec3(20.0, 100.0, 10.0), Vec3(20.0, 60.0, 0.0), Vec3(0.0, 0.0, 1.0))),
    Key(0.2, Camera(Vec3(20.0, 60.0, 0.0), Vec3(20.0, 40.0, 0.0), Vec3(0.0, 0.0, 1.0))),
    Key(0.3, Camera(Vec3(20.0, 45.0, 0.0), Vec3(15.0, 35.0, 0.0), Vec3(1.0, 0.0, 1.0))),
    Key(0.4, Camera(Vec3(15.0, 35.0, 0.0), Vec3(0.0, 0.0, 0.0), Vec3(0.0, 0.0, 1.0))),
    Key(0.5, Camera(Vec3(10.0, 15.0, 0.0), Vec3(0.0, 0.0, 0.0), Vec3(0.0, 0.0, 1.0))),
    Key(0.6, Camera(Vec3(0.0, 10.0, 0.0), Vec3(0.0, 40.0, 0.0), Vec3(0.0, 0.0, 1.0))),
    Key(0.7, Camera(Vec3(0.0, 30.0, 0.0), Vec3(0.0, 50.0, 0.0), Vec3(-1.0, 0.0, 1.0))),
    Key(0.8, Camera(Vec3(0.0, 60.0, 0.0), Vec3(0.0, 100.0, 0.0), Vec3(0.0, 0.0, 1.0))),
    Key(0.9, Camera(Vec3(0.0, 120.0, 20.0), Vec3(0.0, 0.0, 0.0), Vec3(0.0, 0.0, 1.0))),
    Key(1.0, Camera(Vec3(0.0, 200.0, 50.0), Vec3(0.0, 0.0, 0.0), Vec3(0.0, 0.0, 1.0)))
  ]

  /** The dental fly-through (dental_system.py:1737-1744), all with the z axis up. */
  const DentalTour: seq<Key> := [
    Key(0.1, Camera(Vec3(60.0, 0.0, 0.0), Vec3(40.0, 0.0, 0.0), Vec3(0.0, 0.0, 1.0))),
    Key(0.3, Camera(Vec3(40.0, 20.0, 0.0), Vec3(20.0, 30.0, 0.0), Vec3(0.0, 0.0, 1.0))),
    Key(0.5, Camera(Vec3(0.0, 40.0, 0.0), Vec3(-20.0, 35.0, 0.0), Vec3(0.0, 0.0, 1.0))),
    Key(0.7, Camera(Vec3(-20.0, 35.0, 0.0), Vec3(-40.0, 20.0, 0.0), Vec3(0.0, 0.0, 1.0))),
    Key(0.9, Camera(Vec3(-40.0, 20.0, 0.0), Vec3(-60.0, 0.0, 0.0), Vec3(0.0, 0.0, 1.0))),
    Key(1.0, Camera(Vec3(-60.0, 0.0, 0.0), Vec3(-40.0, 0.0, 0.0), Vec3(0.0, 0.0, 1.0)))
  ]

  /** `setup_tour_path` / `setup_dental_tour_path`: the current camera at 0, then the authored keys. */
  function TourPath(current: Camera, tour: seq<Key>): (r: seq<Key>)
    requires Chained(tour)
    ensures Increasing(r)
  {
    ChainedIncreasing(tour);
    AddAll(AddKey([], Key(0.0, current)), tour)
  }

  /** A tour that authors its own key at time 0 replaces the current camera with it. */
  lemma {:induction false} TourOwnStart(current: Camera, tour: seq<Key>)
    requires Chained(tour) && tour != [] && tour[0].time == 0.0
    ensures TourPath(current, tour) == tour
  {
    ChainedIncreasing(tour);
    var p := AddKey([], Key(0.0, current));
    assert p == [Key(0.0, current)];
    var p1 := AddKey(p, tour[0]);
    assert p1 == [tour[0]];
    assert tour == p1 + tour[1..];
    AddAllAppends(p1, tour[1..]);
  }

  /** A tour whose keys all come after time 0 starts from the current camera. */
  lemma {:induction false} TourFromHere(current: Camera, tour: seq<Key>)
    requires Chained(tour) && (tour != [] ==> tour[0].time > 0.0)
    ensures TourPath(current, tour) == [Key(0.0, current)] + tour
  {
    var p := AddKey([], Key(0.0, current));
    assert p == [Key(0.0, current)];
    assert Chained(p + tour) by {
      if tour != [] { assert (p + tour)[1..] == tour; }
    }
    ChainedIncreasing(p + tour);
    AddAllAppends(p, tour);
  }

  /** The heart tour is the same wherever the user was looking. */
  lemma CardioTourIgnoresStart(current: Camera)
    ensures Chained(CardioTour)
    ensures TourPath(current, CardioTour) == CardioTour
  {
    TourOwnStart(current, CardioTour);
  }

  /** The dental tour starts from wherever the camera is. */
  lemma DentalTourStartsHere(current: Camera)
    ensures Chained(DentalTour)
    ensures TourPath(current, DentalTour) == [Key(0.0, current)] + DentalTour
  {
    TourFromHere(current, DentalTour);
  }

  // ---- The spiral dive (cardiovascular_system.py:2065-2129, musculoskeletal_system.py:1632-1676,
  //      nervous_system.py:1466-1510) ----

  const DiveKeyframes: nat := 10
  const DiveDepth := 60.0
  const SpiralRadius := 15.0
  /** How far past the dive point the camera looks. */
  const FocusLead := 20.0

  /** `(1 - t)` in the heart viewer, where the spiral narrows to the axis; 1 in the other two. */
  function Narrowing(shrink: bool, t: real): real { if shrink then 1.0 - t else 1.0 }

  /** The point `a` along `v1` and `b` along `v2` from `center`. */
  function Spiral(center: Vec3, a: real, b: real, v1: Vec3, v2: Vec3): Vec3 {
    Add(Add(center, Scale(a, v1)), Scale(b, v2))
  }

  /** The spiral's offsets along `v1` and `v2` at time `t`: two full turns over the dive. */
  function CosOffset(tr: Trig, t: real): real { SpiralRadius * tr.cos(t * tr.pi * 4.0) }
  function SinOffset(tr: Trig, t: real): real { SpiralRadius * tr.sin(t * tr.pi * 4.0) }

  /** The dive keyframe number `i` (1..10), at time `i / 10`. */
  function DiveKey(shrink: bool, tr: Trig, p: Vec3, n: Vec3, v1: Vec3, i: nat): Key {
    var t := i as real / DiveKeyframes as real;
    var v2 := Cross(n, v1);
    var divePoint := Sub(p, Scale(t * DiveDepth, n));
    var k := Narrowing(shrink, t);
    var pos := Spiral(divePoint, CosOffset(tr, t) * k, SinOffset(tr, t) * k, v1, v2);
    Key(t, Camera(pos, Sub(p, Scale(t * DiveDepth + FocusLead, n)), v2))
  }

  /** The ten dive keyframes, `v1 = perp(n)` being `vtkMath::Perpendiculars`. */
  function DiveKeys(shrink: bool, tr: Trig, p: Vec3, n: Vec3, perp: Vec3 -> Vec3): (r: seq<Key>)
    ensures |r| == DiveKeyframes
    ensures forall i :: 0 <= i < |r| ==> r[i].time == (i + 1) as real / 10.0
  {
    seq(DiveKeyframes, i requires 0 <= i < DiveKeyframes => DiveKey(shrink, tr, p, n, perp(n), i + 1))
  }

  /** `start_deep_dive`'s path: the current camera at 0, then the dive keys. */
  function DivePath(current: Camera, shrink: bool, tr: Trig, p: Vec3, n: Vec3,
                    perp: Vec3 -> Vec3): (r: seq<Key>)
    ensures Increasing(r)
    ensures |r| == DiveKeyframes + 1 && r[0] == Key(0.0, current)
    ensures r[1..] == DiveKeys(shrink, tr, p, n, perp)
  {
    var ks := DiveKeys(shrink, tr, p, n, perp);
    var whole := [Key(0.0, current)] + ks;
    assert Increasing(whole) by {
      forall i, j | 0 <= i < j < |whole| ensures whole[i].time < whole[j].time {
        assert whole[j] == ks[j - 1];
        if i > 0 { assert whole[i] == ks[i - 1]; }
      }
    }
    AddKeyAppends([], Key(0.0, current));
    AddAllAppends([Key(0.0, current)], ks);
    AddAll(AddKey([], Key(0.0, current)), ks)
  }

  lemma ScaleDistributes(a: real, b: real, v: Vec3)
    ensures Scale(a + b, v) == Add(Scale(a, v), Scale(b, v))
  {
  }

  lemma DotScale(n: Vec3, k: real, v: Vec3)
    ensures Dot(n, Scale(k, v)) == k * Dot(n, v)
  {
  }

  /**
   * Every dive keyframe looks `FocusLead` further down the dive axis than
   * its own point on the axis, and its view-up is `n x v1`.
   */
  lemma DiveLooksAhead(shrink: bool, tr: Trig, p: Vec3, n: Vec3, v1: Vec3, i: nat)
    ensures var k := DiveKey(shrink, tr, p, n, v1, i);
      var divePoint := Sub(p, Scale(k.time * DiveDepth, n));
      k.cam.focal == Sub(divePoint, Scale(FocusLead, n)) && k.cam.viewUp == Cross(n, v1)
  {
    var t := i as real / DiveKeyframes as real;
    ScaleDistributes(t * DiveDepth, FocusLead, n);
  }

  lemma SpiralOffset(center: Vec3, a: real, b: real, v1: Vec3, v2: Vec3, n: Vec3)
    ensures Dot(n, Sub(Spiral(center, a, b, v1, v2), center)) == a * Dot(n, v1) + b * Dot(n, v2)
  {
    assert Sub(Spiral(center, a, b, v1, v2), center) == Add(Scale(a, v1), Scale(b, v2));
    DotScale(n, a, v1);
    DotScale(n, b, v2);
  }

  lemma SpiralScales(center: Vec3, a: real, b: real, k: real, v1: Vec3, v2: Vec3)
    ensures Sub(Spiral(center, a * k, b * k, v1, v2), center) == Scale(k, Sub(Spiral(center, a, b, v1, v2), center))
  {
    assert Sub(Spiral(center, a * k, b * k, v1, v2), center) == Add(Scale(a * k, v1), Scale(b * k, v2));
    assert Sub(Spiral(center, a, b, v1, v2), center) == Add(Scale(a, v1), Scale(b, v2));
    OffsetScales(a, b, k, v1, v2);
  }

  lemma OffsetScales(c: real, s: real, k: real, v1: Vec3, v2: Vec3)
    ensures Add(Scale(c * k, v1), Scale(s * k, v2)) == Scale(k, Add(Scale(c, v1), Scale(s, v2)))
  {
  }

  /**
   * The camera circles the dive axis: with `v1` perpendicular to `n`, the
   * keyframe's offset from its point on the axis is perpendicular to `n`.
   */
  lemma DiveCirclesAxis(shrink: bool, tr: Trig, p: Vec3, n: Vec3, v1: Vec3, i: nat)
    requires Dot(n, v1) == 0.0
    ensures var k := DiveKey(shrink, tr, p, n, v1, i);
      Dot(n, Sub(k.cam.position, Sub(p, Scale(k.time * DiveDepth, n)))) == 0.0
  {
    var t := i as real / DiveKeyframes as real;
    var f := Narrowing(shrink, t);
    var v2 := Cross(n, v1);
    SpiralOffset(Sub(p, Scale(t * DiveDepth, n)), CosOffset(tr, t) * f, SinOffset(tr, t) * f, v1, v2, n);
    assert Dot(n, v2) == 0.0;
  }

  /** The heart viewer's narrowing spiral ends on the axis, `DiveDepth` below the picked point. */
  lemma ShrinkingDiveEndsOnAxis(tr: Trig, p: Vec3, n: Vec3, perp: Vec3 -> Vec3)
    ensures var last := DiveKeys(true, tr, p, n, perp)[DiveKeyframes - 1];
      last.time == 1.0 && last.cam.position == Sub(p, Scale(DiveDepth, n))
  {
    var last := DiveKeys(true, tr, p, n, perp)[DiveKeyframes - 1];
    assert last == DiveKey(true, tr, p, n, perp(n), 10);
    assert Narrowing(true, 1.0) == 0.0;
  }

  /**
   * The two spiral policies share times, focal points and view-up; the
   * narrowing spiral's offset is the constant one scaled by `1 - t`.
   */
  lemma DivePoliciesAgree(tr: Trig, p: Vec3, n: Vec3, v1: Vec3, i: nat)
    ensures var a := DiveKey(true, tr, p, n, v1, i);
      var b := DiveKey(false, tr, p, n, v1, i);
      var axis := Sub(p, Scale(a.time * DiveDepth, n));
      && a.time == b.time && a.cam.focal == b.cam.focal && a.cam.viewUp == b.cam.viewUp
      && Sub(a.cam.position, axis) == Scale(1.0 - a.time, Sub(b.cam.position, axis))
  {
    var t := i as real / DiveKeyframes as real;
    var c := CosOffset(tr, t);
    var s := SinOffset(tr, t);
    var axis := Sub(p, Scale(t * DiveDepth, n));
    SpiralScales(axis, c, s, 1.0 - t, v1, Cross(n, v1));
    assert c * 1.0 == c && s * 1.0 == s;
  }

  // ---- The flight tick (cardiovascular_system.py:2131-2170, dental_system.py:1764-1799,
  //      musculoskeletal_system.py:1684-1716, nervous_system.py:1519-1551) ----

  /** The timer-driven flight: `flight_step`, `flight_duration`, the timer, `is_diving`, the camera and clip plane. */
  datatype Flight = Flight(step: nat, duration: nat, running: bool, diving: bool,
                           path: seq<Key>, camera: Camera, plane: Plane)

  /** Ticks per flight: the heart's slider counts seconds (x30 ticks), the others' tenths (x3). */
  function Duration(v: Viewer, slider: nat): nat {
    if v == Cardio then slider * 30 else slider * 3
  }

  /** The slider ranges: 5..30 in the heart viewer, 10..50 elsewhere. */
  predicate SliderInRange(v: Viewer, slider: nat) {
    if v == Cardio then 5 <= slider <= 30 else 10 <= slider <= 50
  }

  lemma DurationBounds(v: Viewer, slider: nat)
    requires SliderInRange(v, slider)
    ensures v == Cardio ==> 150 <= Duration(v, slider) <= 900
    ensures v != Cardio ==> 30 <= Duration(v, slider) <= 150
  {
  }

  /** `vtkMath::Normalize`: divide by the norm unless it is zero. */
  function Normalize(norm: Vec3 -> real, v: Vec3): Vec3 {
    if norm(v) != 0.0 then Scale(1.0 / norm(v), v) else v
  }

  /** A norm that is positive on every non-zero vector. */
  ghost predicate NormSane(norm: Vec3 -> real) {
    forall v :: v != Zero ==> norm(v) > 0.0
  }

  /** The viewing direction, `focal - position` normalized. */
  function Forward(norm: Vec3 -> real, cam: Camera): Vec3 {
    Normalize(norm, Sub(cam.focal, cam.position))
  }

  /**
   * The tunnel plane of the dental, musculoskeletal and brain viewers: one
   * unit ahead of the camera, facing forward.
   */
  function AheadPlane(norm: Vec3 -> real, cam: Camera): Plane {
    var d := Forward(norm, cam);
    Plane(Add(cam.position, d), d)
  }

  /** The heart viewer's tunnel plane as written: at the camera, normal reversed. */
  function CardioPlaneAsWritten(norm: Vec3 -> real, cam: Camera): Plane {
    Plane(cam.position, Neg(Forward(norm, cam)))
  }

  /** The heart viewer's tunnel plane as intended: at the camera, facing forward. */
  function CardioPlane(norm: Vec3 -> real, cam: Camera): Plane {
    Plane(cam.position, Forward(norm, cam))
  }

  /** The tunnel plane each viewer sets while diving, as written. */
  function DivePlane(v: Viewer, norm: Vec3 -> real, cam: Camera): Plane {
    if v == Cardio then CardioPlaneAsWritten(norm, cam) else AheadPlane(norm, cam)
  }

  /** The tunnel planes with the heart viewer's plane corrected. */
  function DivePlaneCorrected(v: Viewer, norm: Vec3 -> real, cam: Camera): Plane {
    if v == Cardio then CardioPlane(norm, cam) else AheadPlane(norm, cam)
  }

  /** A clip plane keeps the points on its normal's side. */
  predicate KeptBy(pl: Plane, q: Vec3) {
    Dot(pl.normal, Sub(q, pl.origin)) >= 0.0
  }

  /** `q` lies behind the camera: on the far side of the plane through the camera facing the focal point. */
  predicate Behind(cam: Camera, q: Vec3) {
    Dot(Sub(cam.focal, cam.position), Sub(q, cam.position)) < 0.0
  }

  lemma Squares(w: Vec3)
    ensures w.x * w.x >= 0.0 && (w.x != 0.0 ==> w.x * w.x > 0.0)
    ensures w.y * w.y >= 0.0 && (w.y != 0.0 ==> w.y * w.y > 0.0)
    ensures w.z * w.z >= 0.0 && (w.z != 0.0 ==> w.z * w.z > 0.0)
  {
    if w.x > 0.0 { assert w.x * w.x > 0.0; } else if w.x < 0.0 { assert (-w.x) * (-w.x) > 0.0; }
    if w.y > 0.0 { assert w.y * w.y > 0.0; } else if w.y < 0.0 { assert (-w.y) * (-w.y) > 0.0; }
    if w.z > 0.0 { assert w.z * w.z > 0.0; } else if w.z < 0.0 { assert (-w.z) * (-w.z) > 0.0; }
  }

  /** A vector's dot product with itself is never negative, and positive unless the vector is zero. */
  lemma SquaresPositive(w: Vec3)
    ensures Dot(w, w) >= 0.0
    ensures w != Zero ==> Dot(w, w) > 0.0
  {
    Squares(w);
    if w.x == 0.0 && w.y == 0.0 && w.z == 0.0 {
      assert w == Zero;
      calc { Dot(w, w); == w.x * w.x + w.y * w.y + w.z * w.z; >= 0.0; }
    } else {
      calc { Dot(w, w); == w.x * w.x + w.y * w.y + w.z * w.z; > 0.0; }
    }
  }

  lemma MulSigns(a: real, b: real)
    requires a > 0.0
    ensures b > 0.0 ==> a * b > 0.0
    ensures b < 0.0 ==> a * b < 0.0
    ensures b >= 0.0 ==> a * b >= 0.0
  {
  }

  lemma ScaledDot(k: real, w: Vec3, u: Vec3)
    ensures Dot(Scale(k, w), u) == k * Dot(w, u)
  {
  }

  /** With a forward-facing direction `d = w / |w|`, signs of `d . u` follow those of `w . u`. */
  lemma ForwardSigns(norm: Vec3 -> real, cam: Camera, u: Vec3)
    requires NormSane(norm) && cam.focal != cam.position
    ensures var w := Sub(cam.focal, cam.position);
      var d := Forward(norm, cam);
      && (Dot(w, u) > 0.0 ==> Dot(d, u) > 0.0)
      && (Dot(w, u) < 0.0 ==> Dot(d, u) < 0.0)
      && (Dot(w, u) >= 0.0 ==> Dot(d, u) >= 0.0)
  {
    var w := Sub(cam.focal, cam.position);
    assert w != Zero;
    var nw := norm(w);
    assert nw > 0.0;
    ScaledDot(1.0 / nw, w, u);
    MulSigns(1.0 / nw, Dot(w, u));
  }

  /** The intended heart tunnel plane keeps the focal point in view... */
  lemma CardioPlaneKeepsFocal(norm: Vec3 -> real, cam: Camera)
    requires NormSane(norm) && cam.focal != cam.position
    ensures KeptBy(CardioPlane(norm, cam), cam.focal)
  {
    ForwardFacesFocal(norm, cam);
  }

  /** The forward direction points at the focal point. */
  lemma ForwardFacesFocal(norm: Vec3 -> real, cam: Camera)
    requires NormSane(norm) && cam.focal != cam.position
    ensures Dot(Forward(norm, cam), Sub(cam.focal, cam.position)) > 0.0
  {
    var w := Sub(cam.focal, cam.position);
    assert w != Zero;
    SquaresPositive(w);
    var k := 1.0 / norm(w);
    ScaledDot(k, w, w);
    MulSigns(k, Dot(w, w));
  }

  /** ...and clips everything behind the camera. */
  lemma CardioPlaneClipsBehind(norm: Vec3 -> real, cam: Camera, q: Vec3)
    requires NormSane(norm) && cam.focal != cam.position
    ensures Behind(cam, q) ==> !KeptBy(CardioPlane(norm, cam), q)
  {
    ForwardSigns(norm, cam, Sub(q, cam.position));
  }

  /** The other viewers' plane also clips everything behind the camera. */
  lemma AheadPlaneClipsBehind(norm: Vec3 -> real, cam: Camera, q: Vec3)
    requires NormSane(norm) && cam.focal != cam.position
    ensures Behind(cam, q) ==> !KeptBy(AheadPlane(norm, cam), q)
  {
    var d := Forward(norm, cam);
    var u := Sub(q, cam.position);
    ForwardSigns(norm, cam, u);
    assert Sub(q, Add(cam.position, d)) == Sub(u, d);
    assert Dot(d, Sub(u, d)) == Dot(d, u) - Dot(d, d);
    SquaresPositive(d);
  }

  /**
   * The heart tunnel plane as written keeps what is behind the camera and
   * clips the focal point, whenever the camera is not on its focal point.
   */
  lemma CardioPlaneAsWrittenHidesView(norm: Vec3 -> real, cam: Camera)
    requires NormSane(norm) && cam.focal != cam.position
    ensures !KeptBy(CardioPlaneAsWritten(norm, cam), cam.focal)
  {
    ForwardFacesFocal(norm, cam);
    NegDot(Forward(norm, cam), Sub(cam.focal, cam.position));
  }

  lemma NegDot(d: Vec3, w: Vec3)
    ensures Dot(Neg(d), w) == -Dot(d, w)
  {
  }

  /** The camera at the origin looking down -z: the as-written plane clips the point it looks at. */
  lemma CardioPlaneAsWrittenExample(norm: Vec3 -> real)
    requires NormSane(norm)
    ensures var cam := Camera(Zero, Vec3(0.0, 0.0, -1.0), Vec3(0.0, 1.0, 0.0));
      !KeptBy(CardioPlaneAsWritten(norm, cam), cam.focal) && KeptBy(CardioPlane(norm, cam), cam.focal)
  {
    var cam := Camera(Zero, Vec3(0.0, 0.0, -1.0), Vec3(0.0, 1.0, 0.0));
    CardioPlaneAsWrittenHidesView(norm, cam);
    CardioPlaneKeepsFocal(norm, cam);
  }

  /** The flight ends once `flight_step / flight_duration` reaches 1. */
  predicate Finishes(fl: Flight)
    requires fl.duration > 0
  {
    (fl.step + 1) as real / fl.duration as real >= 1.0
  }

  lemma FinishesIff(fl: Flight)
    requires fl.duration > 0
    ensures Finishes(fl) <==> fl.step + 1 >= fl.duration
  {
    var a := (fl.step + 1) as real;
    var d := fl.duration as real;
    if a >= d { DivAtLeastOne(a, d); } else { DivBelowOne(a, d); }
  }

  lemma DivAtLeastOne(a: real, d: real)
    requires d > 0.0 && a >= d
    ensures a / d >= 1.0
  {
    assert a / d * d == a;
    MulLess(a / d, d);
  }

  lemma DivBelowOne(a: real, d: real)
    requires d > 0.0 && a < d
    ensures a / d < 1.0
  {
    assert a / d * d == a;
    MulAtLeast(a / d, d);
  }

  lemma MulLess(q: real, d: real)
    requires d > 0.0
    ensures q < 1.0 ==> q * d < d
  {
  }

  lemma MulAtLeast(q: real, d: real)
    requires d > 0.0
    ensures q >= 1.0 ==> q * d >= d
  {
  }

  /**
   * `update_flight_animation`: count the tick; on the last one stop the timer
   * and, for a dive or tour, drop every segment's clip planes; otherwise move
   * the camera to the interpolated key and, while diving, put the tunnel
   * plane in front of it.
   */
  function Tick(v: Viewer, fl: Flight, sc: Scene, interp: (seq<Key>, real) -> Camera,
                norm: Vec3 -> real): (r: (Flight, Scene))
    requires fl.running && fl.duration > 0
    ensures r.0.step == fl.step + 1 && r.0.duration == fl.duration && r.0.path == fl.path
    ensures r.0.running <==> fl.step + 1 < fl.duration
    ensures !r.0.running ==> !r.0.diving && r.0.camera == fl.camera
    ensures !r.0.running && fl.diving ==> r.1 == SetClipAll(sc, NoClip)
    ensures r.0.running || !fl.diving ==> r.1 == sc
    ensures r.0.running ==> (r.0.diving == fl.diving &&
      r.0.camera == interp(fl.path, (fl.step + 1) as real / fl.duration as real))
    ensures r.0.running && fl.diving ==> r.0.plane == DivePlane(v, norm, r.0.camera)
  {
    FinishesIff(fl);
    var next := fl.(step := fl.step + 1);
    if Finishes(fl) then
      (next.(running := false, diving := false), if fl.diving then SetClipAll(sc, NoClip) else sc)
    else
      var cam := interp(fl.path, (fl.step + 1) as real / fl.duration as real);
      (next.(camera := cam, plane := if fl.diving then DivePlane(v, norm, cam) else fl.plane), sc)
  }

  /** The same tick with the heart viewer's tunnel plane corrected; nothing else differs. */
  function TickCorrected(v: Viewer, fl: Flight, sc: Scene, interp: (seq<Key>, real) -> Camera,
                         norm: Vec3 -> real): (r: (Flight, Scene))
    requires fl.running && fl.duration > 0
    ensures r.1 == Tick(v, fl, sc, interp, norm).1
    ensures r.0.(plane := fl.plane) == Tick(v, fl, sc, interp, norm).0.(plane := fl.plane)
    ensures v != Cardio ==> r == Tick(v, fl, sc, interp, norm)
    ensures r.0.running && fl.diving ==> r.0.plane == DivePlaneCorrected(v, norm, r.0.camera)
  {
    var r := Tick(v, fl, sc, interp, norm);
    if r.0.running && fl.diving then (r.0.(plane := DivePlaneCorrected(v, norm, r.0.camera)), r.1) else r
  }

  /**
   * While a dive goes on, the heart viewer's tick as written installs a plane
   * that clips away the point the camera looks at; the other viewers' plane
   * clips everything behind the camera.
   */
  lemma TickPlane(v: Viewer, fl: Flight, sc: Scene, interp: (seq<Key>, real) -> Camera,
                  norm: Vec3 -> real, q: Vec3)
    requires fl.running && fl.duration > 0 && fl.diving && NormSane(norm)
    ensures var r := Tick(v, fl, sc, interp, norm);
      r.0.running && r.0.camera.focal != r.0.camera.position ==>
        && (v == Cardio ==> !KeptBy(r.0.plane, r.0.camera.focal))
        && (v != Cardio && Behind(r.0.camera, q) ==> !KeptBy(r.0.plane, q))
  {
    var r := Tick(v, fl, sc, interp, norm);
    if r.0.running && r.0.camera.focal != r.0.camera.position {
      if v == Cardio {
        CardioPlaneAsWrittenHidesView(norm, r.0.camera);
      } else {
        AheadPlaneClipsBehind(norm, r.0.camera, q);
      }
    }
  }

  /**
   * With the corrected plane every viewer's dive tick clips everything
   * behind the camera, and the heart viewer's keeps the point it looks at.
   */
  lemma TickCorrectedPlane(v: Viewer, fl: Flight, sc: Scene, interp: (seq<Key>, real) -> Camera,
                           norm: Vec3 -> real, q: Vec3)
    requires fl.running && fl.duration > 0 && fl.diving && NormSane(norm)
    ensures var r := TickCorrected(v, fl, sc, interp, norm);
      r.0.running && r.0.camera.focal != r.0.camera.position ==>
        && (Behind(r.0.camera, q) ==> !KeptBy(r.0.plane, q))
        && (v == Cardio ==> KeptBy(r.0.plane, r.0.camera.focal))
  {
    var r := TickCorrected(v, fl, sc, interp, norm);
    if r.0.running && r.0.camera.focal != r.0.camera.position {
      if v == Cardio {
        CardioPlaneClipsBehind(norm, r.0.camera, q);
        CardioPlaneKeepsFocal(norm, r.0.camera);
      } else {
        AheadPlaneClipsBehind(norm, r.0.camera, q);
      }
    }
  }

  /** Up to `k` timer ticks; a stopped timer fires no more. */
  function Run(v: Viewer, fl: Flight, sc: Scene, interp: (seq<Key>, real) -> Camera,
               norm: Vec3 -> real, k: nat): (r: (Flight, Scene))
    requires fl.duration > 0
    ensures r.0.duration == fl.duration
    decreases k
  {
    if k == 0 || !fl.running then (fl, sc)
    else
      var s := Tick(v, fl, sc, interp, norm);
      Run(v, s.0, s.1, interp, norm, k - 1)
  }

  /**
   * A running flight that has not reached its end keeps running tick after
   * tick, with the clip planes untouched, until its step reaches the duration.
   */
  lemma {:induction false} RunCounts(v: Viewer, fl: Flight, sc: Scene, interp: (seq<Key>, real) -> Camera,
                                     norm: Vec3 -> real, k: nat)
    requires fl.running && fl.step < fl.duration && fl.step + k <= fl.duration
    ensures var r := Run(v, fl, sc, interp, norm, k);
      && r.0.step == fl.step + k
      && (r.0.running <==> fl.step + k < fl.duration)
      && (r.0.running ==> r.1 == sc && r.0.diving == fl.diving)
      && (!r.0.running && fl.diving ==> r.1 == SetClipAll(sc, NoClip) && !r.0.diving)
    decreases k
  {
    if k > 0 {
      var s := Tick(v, fl, sc, interp, norm);
      if s.0.running {
        RunCounts(v, s.0, s.1, interp, norm, k - 1);
      } else {
        assert k == 1;
      }
    }
  }

  /**
   * A flight started at step 0 runs for exactly `duration` ticks: it is still
   * flying after `duration - 1` of them and has stopped, with every clip plane
   * removed if it was a dive or tour, after `duration`.
   */
  lemma FlightLasts(v: Viewer, fl: Flight, sc: Scene, interp: (seq<Key>, real) -> Camera, norm: Vec3 -> real)
    requires fl.running && fl.duration > 0 && fl.step == 0
    ensures Run(v, fl, sc, interp, norm, fl.duration - 1).0.running
    ensures var r := Run(v, fl, sc, interp, norm, fl.duration);
      !r.0.running && (fl.diving ==> r.1 == SetClipAll(sc, NoClip))
  {
    RunCounts(v, fl, sc, interp, norm, fl.duration - 1);
    RunCounts(v, fl, sc, interp, norm, fl.duration);
  }

  /** Every segment's mapper clips with the shared flight plane, and the flight starts at step 0. */
  function Launch(v: Viewer, fl: Flight, sc: Scene, path: seq<Key>, slider: nat): (r: (Flight, Scene))
    ensures r.0.step == 0 && r.0.running && r.0.diving && r.0.path == path
    ensures r.0.duration == Duration(v, slider)
    ensures r.1 == SetClipAll(sc, FlightPlane)
  {
    (fl.(step := 0, duration := Duration(v, slider), running := true, diving := true, path := path),
     SetClipAll(sc, FlightPlane))
  }

  /**
   * `start_deep_dive` of the heart (narrowing spiral), musculoskeletal and
   * brain viewers (constant spiral); the dental viewer has no dive.
   */
  function StartDive(v: Viewer, fl: Flight, sc: Scene, current: Camera, tr: Trig, p: Vec3, n: Vec3,
                     perp: Vec3 -> Vec3, slider: nat): (r: (Flight, Scene))
    requires v != Dental
    ensures |r.0.path| == DiveKeyframes + 1
    ensures r.0.path[1..] == DiveKeys(v == Cardio, tr, p, n, perp) && r.0.path[0] == Key(0.0, current)
    ensures r.0.running && r.0.diving && r.0.step == 0 && r.0.duration == Duration(v, slider)
    ensures forall s :: s in sc.segs ==> s in r.1.segs && r.1.segs[s].clip == FlightPlane
  {
    Launch(v, fl, sc, DivePath(current, v == Cardio, tr, p, n, perp), slider)
  }

  /**
   * `toggle_flight_mode(True)` of the dental viewer: leave focus mode
   * (restoring the snapshot), then fly the tour from the current camera.
   */
  function StartDentalTour(fl: Flight, nav: Focus.Navigator, sc: Scene, current: Camera,
                           slider: nat): (r: (Flight, Focus.Navigator, Scene))
    ensures r.0.path == [Key(0.0, current)] + DentalTour
    ensures r.0.running && r.0.diving && r.0.step == 0 && r.0.duration == Duration(Dental, slider)
    ensures !r.1.active
    ensures var left := if nav.active then Focus.Deactivate(Dental, nav, sc).1 else sc;
      r.2 == SetClipAll(left, FlightPlane)
  {
    var (nav', left) := if nav.active then Focus.Deactivate(Dental, nav, sc) else (nav, sc);
    DentalTourStartsHere(current);
    var (fl', sc') := Launch(Dental, fl, left, TourPath(current, DentalTour), slider);
    (fl', nav', sc')
  }

  /** Stopping a tour by hand: the timer stops and every clip plane is dropped. */
  function StopFlight(fl: Flight, sc: Scene): (r: (Flight, Scene))
    ensures !r.0.running && !r.0.diving && r.0.step == fl.step && r.0.camera == fl.camera
    ensures forall s :: s in sc.segs ==> s in r.1.segs && r.1.segs[s] == sc.segs[s].(clip := NoClip)
  {
    (fl.(running := false, diving := false), SetClipAll(sc, NoClip))
  }
}
