/**
 * The dental viewer's `JawMovementController`: segments whose names say
 * `upper` or `lower` are the two jaws; a 30-tick hinge opens or closes them
 * about a pivot 50 units behind the jaws' centre, easing with a half cosine.
 * Also the tree grouping that files each segment under the same jaw.
 */
module Jaw {
  import opened Wrappers
  import opened Text
  import opened Geometry
  import opened Scene

  /** Ticks in one opening or closing (about 1 s). */
  const Ticks := 30

  /** The default full opening angle, in degrees. */
  const DefaultAngle := 15.0

  /** How far the pivot sits from the jaws' centre along y. */
  const PivotLift := 50.0

  // ---- identify_jaw_parts (dental_system.py:257-283) ----

  /** Which jaw a name belongs to: `upper` is tested first, so a name with both words is upper. */
  datatype Side = UpperJaw | LowerJaw | NoJaw

  function SideOf(n: string): (s: Side)
    ensures s == UpperJaw <==> Mentions(n, "upper")
    ensures s == LowerJaw <==> !Mentions(n, "upper") && Mentions(n, "lower")
  {
    if Mentions(n, "upper") then UpperJaw else if Mentions(n, "lower") then LowerJaw else NoJaw
  }

  /** The names of one side, in the given order. */
  function OfSide(names: seq<string>, side: Side): (r: seq<string>)
    ensures forall n :: n in r <==> n in names && SideOf(n) == side
    ensures |r| <= |names|
  {
    if names == [] then []
    else
      var rest := OfSide(names[1..], side);
      assert forall n :: n in names <==> n == names[0] || n in names[1..];
      if SideOf(names[0]) == side then [names[0]] + rest else rest
  }

  /** The two lists never share a name, and every listed name mentions its jaw. */
  lemma SidesDisjoint(names: seq<string>)
    ensures forall n :: n in OfSide(names, UpperJaw) ==> n !in OfSide(names, LowerJaw)
    ensures forall n :: n in OfSide(names, UpperJaw) ==> Mentions(n, "upper")
    ensures forall n :: n in OfSide(names, LowerJaw) ==> Mentions(n, "lower")
    ensures forall n :: n in names && !Mentions(n, "upper") && !Mentions(n, "lower") ==>
      n !in OfSide(names, UpperJaw) && n !in OfSide(names, LowerJaw)
  {
  }

  /** The mesh bounds of the listed segments that have points, merged. */
  function MeshBounds(sc: Scene, names: seq<string>): (r: Option<Box>)
    ensures r.None? <==> forall i :: 0 <= i < |names| ==> names[i] !in sc.segs || |sc.segs[names[i]].points| == 0
    ensures r.Some? ==> forall i :: 0 <= i < |names| && names[i] in sc.segs && |sc.segs[names[i]].points| > 0 ==>
      Inside(sc.segs[names[i]].dataBounds, r.value)
  {
    if names == [] then None
    else
      var rest := MeshBounds(sc, names[1..]);
      assert forall i :: 1 <= i < |names| ==> names[i] == names[1..][i - 1];
      if names[0] in sc.segs && |sc.segs[names[0]].points| > 0 then
        var b := sc.segs[names[0]].dataBounds;
        match rest
        case None => Some(b)
        case Some(u) => Some(Union(b, u))
      else rest
  }

  /**
   * The pivot for the parts: the merged bounds' centre lifted by 50 in y. A
   * bounding box that never received bounds reports the largest float as
   * minimum and its negation as maximum, so its centre is the origin.
   */
  function PivotFor(sc: Scene, parts: seq<string>): (p: Vec3)
    ensures MeshBounds(sc, parts).None? ==> p == Vec3(0.0, PivotLift, 0.0)
  {
    var c := match MeshBounds(sc, parts) case Some(b) => Center(b) case None => Zero;
    Vec3(c.x, c.y + PivotLift, c.z)
  }

  /**
   * The controller's state: tick counter, direction, busy flag, full angle,
   * the two part lists, the pivot and the completion callback. The timer
   * runs exactly while `animating` holds.
   */
  datatype Jaw<C> = Jaw(step: int, opening: bool, animating: bool, angle: real,
                        upper: seq<string>, lower: seq<string>, pivot: Vec3, callback: Option<C>)

  function Init<C>(): Jaw<C> { Jaw(0, true, false, DefaultAngle, [], [], Zero, None) }

  predicate HasParts<C>(j: Jaw<C>) { |j.upper| > 0 || |j.lower| > 0 }

  /**
   * `identify_jaw_parts`: list the upper and lower parts in registry order;
   * when there are any, move the pivot to their centre lifted by 50,
   * otherwise keep the old pivot.
   */
  function Identify<C>(j: Jaw<C>, sc: Scene): (r: Jaw<C>)
    ensures r.upper == OfSide(sc.order, UpperJaw) && r.lower == OfSide(sc.order, LowerJaw)
    ensures HasParts(r) ==> r.pivot == PivotFor(sc, r.upper + r.lower)
    ensures !HasParts(r) ==> r.pivot == j.pivot
    ensures r == j.(upper := r.upper, lower := r.lower, pivot := r.pivot)
  {
    var up := OfSide(sc.order, UpperJaw);
    var low := OfSide(sc.order, LowerJaw);
    j.(upper := up, lower := low, pivot := if |up| > 0 || |low| > 0 then PivotFor(sc, up + low) else j.pivot)
  }

  /**
   * `start_jaw_movement`: ignored while busy; otherwise identify the parts,
   * and when there are some, reset the counter, take direction and callback
   * and run.
   */
  function Start<C>(j: Jaw<C>, sc: Scene, opening: bool, callback: Option<C>): (r: Jaw<C>)
    ensures j.animating ==> r == j
    ensures !j.animating && !HasParts(Identify(j, sc)) ==> r == Identify(j, sc)
    ensures !j.animating && HasParts(Identify(j, sc)) ==>
      r == Identify(j, sc).(step := 0, opening := opening, animating := true, callback := callback)
  {
    if j.animating then j
    else
      var k := Identify(j, sc);
      if !HasParts(k) then k
      else k.(step := 0, opening := opening, animating := true, callback := callback)
  }

  // ---- update_jaw_animation (dental_system.py:302-350) ----

  /** The result of counting one tick: the controller, the clamped progress and the callback to run. */
  datatype Counted<C> = Counted(jaw: Jaw<C>, progress: real, fire: Option<C>)

  /**
   * The bookkeeping half of a tick: count it; on the 30th clamp progress to
   * 1, stop, and hand back the callback, clearing it first so it runs once.
   */
  function Count<C>(j: Jaw<C>): (r: Counted<C>)
    requires j.animating
    ensures r.jaw.step == j.step + 1
    ensures r.jaw.animating <==> j.step + 1 < Ticks
    ensures 0.0 <= j.step as real ==> 0.0 <= r.progress <= 1.0
    ensures r.jaw.animating ==> r.fire.None? && r.jaw.callback == j.callback
    ensures !r.jaw.animating ==> r.fire == j.callback && r.jaw.callback.None? && r.progress == 1.0
    ensures r.jaw == j.(step := r.jaw.step, animating := r.jaw.animating, callback := r.jaw.callback)
  {
    var step := j.step + 1;
    if step >= Ticks then Counted(j.(step := step, animating := false, callback := None), 1.0, j.callback)
    else Counted(j.(step := step), step as real / Ticks as real, None)
  }

  /** `0.5 - 0.5 cos(progress * pi)`: the eased progress. */
  function Smooth(tr: Trig, progress: real): real {
    0.5 - 0.5 * tr.cos(progress * tr.pi)
  }

  /** The easing starts at 0, ends at 1 and stays in between. */
  lemma SmoothRange(tr: Trig, progress: real)
    requires TrigSane(tr)
    ensures 0.0 <= Smooth(tr, progress) <= 1.0
    ensures progress == 0.0 ==> Smooth(tr, progress) == 0.0
    ensures progress == 1.0 ==> Smooth(tr, progress) == 1.0
  {
    assert 0.0 * tr.pi == 0.0 && 1.0 * tr.pi == tr.pi;
  }

  /** The opening angle drawn at `progress`: eased up when opening, eased down when closing. */
  function FrameAngle(tr: Trig, opening: bool, progress: real, full: real): real {
    (if opening then Smooth(tr, progress) else 1.0 - Smooth(tr, progress)) * full
  }

  /**
   * An opening starts closed and ends at the full angle; a closing starts
   * at the full angle and ends closed.
   */
  lemma FrameAngleEnds(tr: Trig, full: real)
    requires TrigSane(tr)
    ensures FrameAngle(tr, true, 0.0, full) == 0.0 && FrameAngle(tr, true, 1.0, full) == full
    ensures FrameAngle(tr, false, 0.0, full) == full && FrameAngle(tr, false, 1.0, full) == 0.0
  {
    SmoothRange(tr, 0.0);
    SmoothRange(tr, 1.0);
  }

  /** The upper jaw's pose: tilted back by a tenth of the angle about the pivot, after a small lift along z. */
  function UpperPose(c: Vec3, tr: Trig, a: real): Affine {
    Compose(About(c, RotXDeg(tr, -a * 0.1)), Translation(Vec3(0.0, 0.0, a * 0.1)))
  }

  /** The lower jaw's pose: turned by the angle about the pivot, after a drop of 1.5 times the angle along z. */
  function LowerPose(c: Vec3, tr: Trig, a: real): Affine {
    Compose(About(c, RotXDeg(tr, a)), Translation(Vec3(0.0, 0.0, -a * 1.5)))
  }

  /** Where a hinge pose `About(c, r)` after a shift `v` sends a point `q`. */
  lemma PoseApply(c: Vec3, r: Affine, v: Vec3, q: Vec3)
    requires r.t == Zero
    ensures Apply(Compose(About(c, r), Translation(v)), q) == Add(c, MatVec(r.m, Sub(Add(q, v), c)))
  {
    ApplyCompose(About(c, r), Translation(v), q);
    ApplyCompose(Translation(c), Compose(r, Translation(Neg(c))), Add(q, v));
    ApplyCompose(r, Translation(Neg(c)), Add(q, v));
    MatVecI3(Add(q, v));
    MatVecI3(Neg(c));
    MatVecI3(MatVec(r.m, Sub(Add(q, v), c)));
    assert Apply(Translation(Neg(c)), Add(q, v)) == Sub(Add(q, v), c);
  }

  lemma ShiftBack(c: Vec3, q: Vec3, v: Vec3)
    requires v == Zero
    ensures Add(c, Sub(Add(q, v), c)) == q
  {
  }

  lemma ShiftOnto(c: Vec3, v: Vec3, m: Mat3)
    ensures Sub(Add(Sub(c, v), v), c) == Zero
    ensures Add(c, MatVec(m, Zero)) == c
  {
  }

  /** An unturned, unshifted hinge pose leaves every point where it is. */
  lemma IdentityPoseFixes(c: Vec3, r: Affine, v: Vec3, q: Vec3)
    requires r.m == I3 && r.t == Zero && v == Zero
    ensures Apply(Compose(About(c, r), Translation(v)), q) == q
  {
    PoseApply(c, r, v, q);
    MatVecI3(Sub(Add(q, v), c));
    ShiftBack(c, q, v);
  }

  /** At angle 0 both poses leave every point where it is: a closed jaw is drawn where its mesh is. */
  lemma ClosedPoseFixes(c: Vec3, tr: Trig, q: Vec3)
    requires TrigSane(tr)
    ensures Apply(UpperPose(c, tr, 0.0), q) == q
    ensures Apply(LowerPose(c, tr, 0.0), q) == q
  {
    RotXDegZero(tr);
    assert -0.0 * 0.1 == 0.0 && 0.0 * 0.1 == 0.0 && -0.0 * 1.5 == 0.0;
    IdentityPoseFixes(c, RotXDeg(tr, 0.0), Vec3(0.0, 0.0, 0.0), q);
  }

  /**
   * At any other angle the lower pose moves points: the point 1.5 times the
   * angle above the pivot along z is carried onto the pivot.
   */
  lemma OpenLowerPoseMoves(c: Vec3, tr: Trig, a: real)
    ensures Apply(LowerPose(c, tr, a), Add(c, Vec3(0.0, 0.0, a * 1.5))) == c
  {
    var v := Vec3(0.0, 0.0, -a * 1.5);
    var q := Add(c, Vec3(0.0, 0.0, a * 1.5));
    assert q == Sub(c, v);
    PoseApply(c, RotXDeg(tr, a), v, q);
    ShiftOnto(c, v, RotXDeg(tr, a).m);
  }

  /** Every part of a jaw list gets its pose, lower over upper; other segments are untouched. */
  function Posed(sc: Scene, upper: seq<string>, lower: seq<string>, up: Affine, low: Affine): (r: Scene)
    ensures r.order == sc.order && r.segs.Keys == sc.segs.Keys
    ensures forall n :: n in sc.segs ==>
      r.segs[n] == (if n in lower then sc.segs[n].(transform := Some(low))
                    else if n in upper then sc.segs[n].(transform := Some(up))
                    else sc.segs[n])
  {
    sc.(segs := map n | n in sc.segs ::
      if n in lower then sc.segs[n].(transform := Some(low))
      else if n in upper then sc.segs[n].(transform := Some(up))
      else sc.segs[n])
  }

  /**
   * A frame's transforms: upper parts get the upper pose, then lower parts
   * the lower pose (so a name in both lists would end with the lower one);
   * names not in the registry are skipped and everything else is untouched.
   */
  function Draw<C>(sc: Scene, j: Jaw<C>, tr: Trig, a: real): Scene {
    Posed(sc, j.upper, j.lower, UpperPose(j.pivot, tr, a), LowerPose(j.pivot, tr, a))
  }

  /** The frame for a controller at `progress`, drawn with the controller's own direction and angle. */
  function FrameOf<C>(sc: Scene, j: Jaw<C>, tr: Trig, progress: real): Scene {
    Draw(sc, j, tr, FrameAngle(tr, j.opening, progress, j.angle))
  }

  /** A lower-jaw part in the registry is drawn in the lower pose at the frame's angle. */
  lemma FrameOfLower<C>(sc: Scene, j: Jaw<C>, tr: Trig, progress: real, n: string)
    requires n in sc.segs && n in j.lower
    ensures FrameOf(sc, j, tr, progress).segs[n].transform ==
      Some(LowerPose(j.pivot, tr, FrameAngle(tr, j.opening, progress, j.angle)))
  {
  }

  /** `reset_jaw_position` of the controller: identify the parts, then clear their transforms. */
  function Reset<C>(j: Jaw<C>, sc: Scene): (r: (Jaw<C>, Scene))
    requires WellFormed(sc)
    ensures r.0 == Identify(j, sc)
    ensures r.1.order == sc.order && r.1.segs.Keys == sc.segs.Keys
    ensures forall n :: n in sc.segs ==>
      r.1.segs[n] == if SideOf(n) != NoJaw then sc.segs[n].(transform := None) else sc.segs[n]
  {
    var k := Identify(j, sc);
    assert forall n :: n in sc.segs ==> (n in k.upper + k.lower <==> n in sc.order && SideOf(n) != NoJaw);
    (k, sc.(segs := map n | n in sc.segs ::
      if n in k.upper + k.lower then sc.segs[n].(transform := None) else sc.segs[n]))
  }

  /** Every jaw part of the registry gets one of the two poses. */
  lemma PosedPart(sc: Scene, upper: seq<string>, lower: seq<string>, up: Affine, low: Affine, n: string)
    requires WellFormed(sc) && n in sc.segs && SideOf(n) != NoJaw
    requires upper == OfSide(sc.order, UpperJaw) && lower == OfSide(sc.order, LowerJaw)
    ensures Posed(sc, upper, lower, up, low).segs[n].transform in {Some(up), Some(low)}
  {
    assert n in upper || n in lower;
  }

  /** When both poses fix a point, so does whatever a jaw part was given. */
  lemma PosedPartFixes(sc: Scene, upper: seq<string>, lower: seq<string>, up: Affine, low: Affine, n: string, q: Vec3)
    requires WellFormed(sc) && n in sc.segs && SideOf(n) != NoJaw
    requires upper == OfSide(sc.order, UpperJaw) && lower == OfSide(sc.order, LowerJaw)
    requires Apply(up, q) == q && Apply(low, q) == q
    ensures Posed(sc, upper, lower, up, low).segs[n].transform.Some?
    ensures Apply(Posed(sc, upper, lower, up, low).segs[n].transform.value, q) == q
  {
    PosedPart(sc, upper, lower, up, low, n);
  }

  /**
   * Drawing a closed jaw and resetting it look the same: every jaw part
   * ends without an effective transform either way.
   */
  lemma ClosedFrameMatchesReset<C>(sc: Scene, j: Jaw<C>, tr: Trig, n: string, q: Vec3)
    requires TrigSane(tr) && WellFormed(sc) && n in sc.segs && SideOf(n) != NoJaw
    requires j.upper == OfSide(sc.order, UpperJaw) && j.lower == OfSide(sc.order, LowerJaw)
    ensures Draw(sc, j, tr, 0.0).segs[n].transform.Some?
    ensures Apply(Draw(sc, j, tr, 0.0).segs[n].transform.value, q) == q
    ensures Reset(j, sc).1.segs[n].transform.None?
  {
    ClosedPoseFixes(j.pivot, tr, q);
    PosedPartFixes(sc, j.upper, j.lower, UpperPose(j.pivot, tr, 0.0), LowerPose(j.pivot, tr, 0.0), n, q);
  }

  // ---- add_segment_to_tree (dental_system.py:1936-1977) ----

  const UpperGroup := "Upper Jaw (Maxilla)"
  const LowerGroup := "Lower Jaw (Mandible)"
  const OtherGroup := "Other Segments"

  /** The tree group a segment is filed under, by the same test as the jaw split. */
  function GroupOf(n: string): string {
    match SideOf(n)
    case UpperJaw => UpperGroup
    case LowerJaw => LowerGroup
    case NoJaw => OtherGroup
  }

  /** A top-level tree item and its children, in insertion order. */
  datatype Group = Group(title: string, children: seq<string>)

  /** The children filed under `title`, or none. */
  function Children(tree: seq<Group>, title: string): seq<string> {
    if tree == [] then []
    else if tree[0].title == title then tree[0].children
    else Children(tree[1..], title)
  }

  predicate Labelled(tree: seq<Group>, title: string) {
    exists i :: 0 <= i < |tree| && tree[i].title == title
  }

  /** `add_segment_to_tree`: append to the first group with the right title, or open a new group at the end. */
  function AddToTree(tree: seq<Group>, n: string): (r: seq<Group>)
    ensures Children(r, GroupOf(n)) == Children(tree, GroupOf(n)) + [n]
    ensures forall l :: l != GroupOf(n) ==> Children(r, l) == Children(tree, l)
    ensures forall l :: Labelled(r, l) <==> Labelled(tree, l) || l == GroupOf(n)
  {
    var g := GroupOf(n);
    if tree == [] then [Group(g, [n])]
    else if tree[0].title == g then
      var head := tree[0].(children := tree[0].children + [n]);
      LabelledCons(tree[0], tree[1..]);
      LabelledCons(head, tree[1..]);
      assert [tree[0]] + tree[1..] == tree;
      assert ([head] + tree[1..])[1..] == tree[1..];
      [head] + tree[1..]
    else
      var rest := AddToTree(tree[1..], n);
      LabelledCons(tree[0], tree[1..]);
      LabelledCons(tree[0], rest);
      assert [tree[0]] + tree[1..] == tree;
      [tree[0]] + rest
  }

  lemma LabelledCons(g: Group, rest: seq<Group>)
    ensures forall l :: Labelled([g] + rest, l) <==> g.title == l || Labelled(rest, l)
  {
    var r := [g] + rest;
    forall l ensures Labelled(r, l) ==> g.title == l || Labelled(rest, l) {
      if Labelled(r, l) {
        var i :| 0 <= i < |r| && r[i].title == l;
        if i > 0 { assert rest[i - 1].title == l; }
      }
    }
    forall l | Labelled(rest, l) ensures Labelled(r, l) {
      var i :| 0 <= i < |rest| && rest[i].title == l;
      assert r[i + 1].title == l;
    }
    forall l | g.title == l ensures Labelled(r, l) {
      assert r[0].title == l;
    }
  }

  /** The tree after adding the names one by one. */
  function BuildTree(tree: seq<Group>, names: seq<string>): seq<Group>
    decreases |names|
  {
    if names == [] then tree else BuildTree(AddToTree(tree, names[0]), names[1..])
  }

  /**
   * The tree and the animation agree on the jaws: loading segments in
   * registry order files exactly the upper parts, in order, under the upper
   * group, and exactly the lower parts under the lower group.
   */
  lemma {:induction false} TreeGroupsAreJawParts(tree: seq<Group>, names: seq<string>)
    ensures Children(BuildTree(tree, names), UpperGroup) == Children(tree, UpperGroup) + OfSide(names, UpperJaw)
    ensures Children(BuildTree(tree, names), LowerGroup) == Children(tree, LowerGroup) + OfSide(names, LowerJaw)
    decreases |names|
  {
    if names != [] {
      var t := AddToTree(tree, names[0]);
      TreeGroupsAreJawParts(t, names[1..]);
      var g := GroupOf(names[0]);
      if SideOf(names[0]) == UpperJaw {
        assert Children(t, UpperGroup) == Children(tree, UpperGroup) + [names[0]];
        assert Children(t, LowerGroup) == Children(tree, LowerGroup);
      } else if SideOf(names[0]) == LowerJaw {
        assert Children(t, LowerGroup) == Children(tree, LowerGroup) + [names[0]];
        assert Children(t, UpperGroup) == Children(tree, UpperGroup);
      } else {
        assert Children(t, LowerGroup) == Children(tree, LowerGroup);
        assert Children(t, UpperGroup) == Children(tree, UpperGroup);
      }
    }
  }
}
