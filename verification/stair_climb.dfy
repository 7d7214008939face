/**
 * The musculoskeletal viewer's `StairClimbAnimator`: a motor signal runs
 * down the whole left leg, the lower left leg bends up about the knee and
 * back down, then the same happens on the right. Each leg is found by name
 * prefix; the lower-leg parts and the knee pivot by exact part names.
 *
 * The Qt timer ticks while the sequence is not idle; `QTimer.singleShot`
 * becomes the `pending` queue of deferred phase changes, delivered by
 * `Deliver`. Wall-clock time, trigonometry and the square root arrive as
 * parameters.
 */
module StairClimb {
  import opened Wrappers
  import opened Text
  import opened Geometry
  import opened Scene
  import MuscleSignal

  datatype Side = Left | Right

  function SideName(s: Side): string {
    match s
    case Left => "Left"
    case Right => "Right"
  }

  /** `VHF_<side>_`, the prefix every segment of one leg carries. */
  function Prefix(s: Side): string { "VHF_" + SideName(s) + "_" }

  /** No segment name carries both prefixes: the two legs never share a part. */
  lemma PrefixesExclusive(n: string)
    ensures !(StartsWith(n, Prefix(Left)) && StartsWith(n, Prefix(Right)))
  {
    if StartsWith(n, Prefix(Left)) {
      PrefixLetter(n, Left);
    }
  }

  /** The fifth letter of a leg's segment name is the side's initial. */
  lemma PrefixLetter(n: string, s: Side)
    requires StartsWith(n, Prefix(s))
    ensures n[4] == SideName(s)[0]
  {
    assert n[4] == n[..|Prefix(s)|][4];
  }

  // ---- _get_lower_leg_parts and _get_all_leg_actors (musculoskeletal_system.py:258-356) ----

  const BoneKeys: seq<string> := [
    "Bone_Tibia", "Bone_Fibula", "Bone_Patella", "Bone_Calcaneous", "Bone_Cuboid",
    "Bone_IntermediateCuneiform", "Bone_LateralCuneiform", "Bone_MedialCuneiform",
    "Bone_Navicular", "Bone_Phalanges", "Bone_Talus"]

  const CartilageKeys: seq<string> := [
    "Cartilage_TibiaDistal", "Cartilage_TibiaLateral", "Cartilage_TibiaMedial",
    "Cartilage_Patella", "Cartilage_Talus"]

  const MuscleKeys: seq<string> := [
    "Muscle_ExtensorDigitorumLongus", "Muscle_ExtensorHallucisLongus",
    "Muscle_FlexorDigitorumLongus", "Muscle_FlexorHallucisLongus",
    "Muscle_GastrocnemiusLateral", "Muscle_GastrocnemiusMedial", "Muscle_PeroneusLongus",
    "Muscle_Plantaris", "Muscle_Popliteus", "Muscle_Soleus", "Muscle_TibialisAnterior",
    "Muscle_TibialisPosterior"]

  /** The preferred knee pivot: the centre of the distal femur cartilage. */
  const PivotCartilage := "Cartilage_FemurDistal"

  /** The fallback pivot: the bottom centre of the femur. */
  const PivotBone := "Bone_Femur"

  /** The part name: what follows the prefix, with every `_smooth` removed. */
  function PartName(n: string, s: Side): string
    requires StartsWith(n, Prefix(s))
  {
    ReplaceAll(n[|Prefix(s)|..], "_smooth", "")
  }

  /** A lower-leg part: the prefix, and a part name on one of the three lists exactly. */
  predicate Moves(n: string, s: Side) {
    StartsWith(n, Prefix(s)) &&
    var p := PartName(n, s);
    p in BoneKeys || p in CartilageKeys || p in MuscleKeys
  }

  /** A part that shows the signal: the prefix and none of the pelvic bones. */
  predicate Signals(n: string, s: Side) {
    StartsWith(n, Prefix(s)) && !Contains(n, "Pelvis") && !Contains(n, "Sacrum") && !Contains(n, "Coccyx")
  }

  /** The segment of this leg whose part name is `key`. */
  predicate IsPart(n: string, s: Side, key: string) {
    StartsWith(n, Prefix(s)) && PartName(n, s) == key
  }

  /** The names of `names` that satisfy `p`, in order. */
  function Select(names: seq<string>, p: string -> bool): (r: seq<string>)
    ensures forall n :: n in r <==> n in names && p(n)
    ensures |r| <= |names|
  {
    if names == [] then [] else (if p(names[0]) then [names[0]] else []) + Select(names[1..], p)
  }

  /** The last name in `names` that is the part `key` of this leg: a later match overwrites an earlier one. */
  function LastPart(names: seq<string>, s: Side, key: string): (r: Option<string>)
    ensures r.Some? ==> r.value in names && IsPart(r.value, s, key)
    ensures r.None? <==> forall n :: n in names ==> !IsPart(n, s, key)
  {
    if names == [] then None
    else if IsPart(names[|names| - 1], s, key) then Some(names[|names| - 1])
    else
      var r := LastPart(names[..|names| - 1], s, key);
      assert names == names[..|names| - 1] + [names[|names| - 1]];
      r
  }

  /** The knee: the distal femur cartilage's centre, else the femur's bottom centre, else none. */
  function Pivot(sc: Scene, s: Side): (r: Option<Vec3>)
    requires WellFormed(sc)
    ensures r.None? <==> forall n :: n in sc.order ==> !IsPart(n, s, PivotCartilage) && !IsPart(n, s, PivotBone)
  {
    match LastPart(sc.order, s, PivotCartilage)
    case Some(n) => Some(Center(sc.segs[n].actorBounds))
    case None =>
      match LastPart(sc.order, s, PivotBone)
      case Some(n) =>
        var b := sc.segs[n].actorBounds;
        Some(Vec3((b.xmin + b.xmax) / 2.0, b.ymin, (b.zmin + b.zmax) / 2.0))
      case None => None
  }

  /** What one leg contributes: the parts that bend, the parts that flash, and the knee. */
  datatype Leg = Leg(moving: seq<string>, signal: seq<string>, pivot: Option<Vec3>)

  function FindLeg(sc: Scene, s: Side): (l: Leg)
    requires WellFormed(sc)
    ensures forall n :: n in l.moving <==> n in sc.segs && Moves(n, s)
    ensures forall n :: n in l.signal <==> n in sc.segs && Signals(n, s)
    ensures l.pivot == Pivot(sc, s)
  {
    Leg(Select(sc.order, n => Moves(n, s)), Select(sc.order, n => Signals(n, s)), Pivot(sc, s))
  }

  /** What `start` demands of each leg: something to bend, a knee, and something to flash. */
  predicate Complete(l: Leg) {
    l.moving != [] && l.pivot.Some? && l.signal != []
  }

  /** The knee and the lower leg never coincide: neither pivot part is on the bending lists. */
  lemma PivotPartsStay(n: string, s: Side)
    requires IsPart(n, s, PivotCartilage) || IsPart(n, s, PivotBone)
    ensures !Moves(n, s)
  {
    if IsPart(n, s, PivotCartilage) {
      CartilageUnlisted();
    } else {
      BoneUnlisted();
    }
  }

  lemma CartilageUnlisted()
    ensures PivotCartilage !in BoneKeys && PivotCartilage !in CartilageKeys && PivotCartilage !in MuscleKeys
  {
    assert PivotCartilage[10] == 'F' && PivotCartilage[11] == 'e';
  }

  lemma BoneUnlisted()
    ensures PivotBone !in BoneKeys && PivotBone !in CartilageKeys && PivotBone !in MuscleKeys
  {
    assert PivotBone[5] == 'F' && PivotBone[6] == 'e';
  }

  // ---- The phase machine (musculoskeletal_system.py:357-492) ----

  datatype Phase = Idle | SignalStart(side: Side) | SignalRun(side: Side) | MoveUp(side: Side) | MoveDown(side: Side)

  function SideWord(s: Side): string {
    match s
    case Left => "LEFT"
    case Right => "RIGHT"
  }

  /** The state string the animator keeps. */
  function StateName(p: Phase): string {
    match p
    case Idle => "IDLE"
    case SignalStart(s) => "SIGNAL_" + SideWord(s) + "_START"
    case SignalRun(s) => "SIGNAL_" + SideWord(s) + "_RUN"
    case MoveUp(s) => "MOVE_" + SideWord(s) + "_UP"
    case MoveDown(s) => "MOVE_" + SideWord(s) + "_DOWN"
  }

  /** The deferred handler's `endswith("_RUN")` test picks out exactly the two signal-running phases. */
  lemma RunSuffix(p: Phase)
    ensures EndsWith(StateName(p), "_RUN") <==> p.SignalRun?
  {
    var n := StateName(p);
    if p.SignalRun? {
      assert n[|n| - 4..] == "_RUN";
    } else if |n| >= 4 {
      assert n[|n| - 1] != 'N' || n[|n| - 2] != 'U';
      assert n[|n| - 4..][3] == n[|n| - 1] && n[|n| - 4..][2] == n[|n| - 2];
    }
  }

  /** The order the sequence runs through: signal, bend up, bend down, left leg first. */
  function Next(p: Phase): Phase {
    match p
    case Idle => Idle
    case SignalStart(s) => SignalRun(s)
    case SignalRun(s) => MoveUp(s)
    case MoveUp(s) => MoveDown(s)
    case MoveDown(s) => if s == Left then SignalStart(Right) else Idle
  }

  /** Ticks per bend: the step runs from 0 through 30 and the phase ends when it passes 30. */
  const Frames := 30

  /** The phase and step bookkeeping of one tick. */
  function Advance(p: Phase, step: int): (r: (Phase, int))
    ensures r.0 == p || r.0 == Next(p)
  {
    match p
    case SignalStart(s) => (SignalRun(s), 0)
    case MoveUp(_) => if step + 1 > Frames then (Next(p), 0) else (p, step + 1)
    case MoveDown(_) => if step + 1 > Frames then (Next(p), 0) else (p, step + 1)
    case _ => (p, step)
  }

  function AdvanceN(p: Phase, step: int, k: nat): (Phase, int)
    decreases k
  {
    if k == 0 then (p, step) else AdvanceN(Advance(p, step).0, Advance(p, step).1, k - 1)
  }

  /** Inside a bend, each tick adds one to the step and keeps the phase. */
  lemma {:induction false} BendRuns(p: Phase, step: int, k: nat)
    requires p.MoveUp? || p.MoveDown?
    requires 0 <= step && step + k <= Frames
    ensures AdvanceN(p, step, k) == (p, step + k)
    decreases k
  {
    if k > 0 {
      BendRuns(p, step + 1, k - 1);
    }
  }

  /** A bend lasts 31 ticks: from step 0, the 31st tick moves to the next phase at step 0. */
  lemma BendLasts(p: Phase)
    requires p.MoveUp? || p.MoveDown?
    ensures AdvanceN(p, 0, Frames) == (p, Frames)
    ensures AdvanceN(p, 0, Frames + 1) == (Next(p), 0)
  {
    BendRuns(p, 0, Frames);
    AdvanceSplit(p, 0, Frames, 1);
  }

  lemma {:induction false} AdvanceSplit(p: Phase, step: int, j: nat, k: nat)
    ensures AdvanceN(p, step, j + k) == AdvanceN(AdvanceN(p, step, j).0, AdvanceN(p, step, j).1, k)
    decreases j
  {
    if j > 0 {
      AdvanceSplit(Advance(p, step).0, Advance(p, step).1, j - 1, k);
    }
  }

  // ---- Bending about the knee (musculoskeletal_system.py:493-533) ----

  /** The full bend, in degrees about X. */
  const Angle := -60.0

  /**
   * `_get_rotation_transform`: `Translate(p)`, `RotateX(progress * -60)`,
   * `Translate(-p)` multiplied out: the rotation's matrix, and the offset
   * that keeps the knee `p` in place.
   */
  function Bend(tr: Trig, progress: real, knee: Vec3): Affine {
    var r := RotXDeg(tr, progress * Angle);
    Affine(r.m, Sub(knee, MatVec(r.m, knee)))
  }

  /** The multiplied-out form is the rotation conjugated to act about the knee, point by point. */
  lemma BendIsTurnAboutKnee(tr: Trig, progress: real, knee: Vec3, q: Vec3)
    ensures Apply(Bend(tr, progress, knee), q) == Apply(About(knee, RotXDeg(tr, progress * Angle)), q)
  {
    var r := RotXDeg(tr, progress * Angle);
    assert r.t == Zero;
    TurnAbout(knee, r, q);
  }

  lemma TurnAbout(knee: Vec3, r: Affine, q: Vec3)
    requires r.t == Zero
    ensures Apply(Affine(r.m, Sub(knee, MatVec(r.m, knee))), q) == Apply(About(knee, r), q)
  {
    AboutApply(knee, r, q);
    MatVecSub(r.m, q, knee);
  }

  lemma MatVecSub(m: Mat3, a: Vec3, b: Vec3)
    ensures MatVec(m, Sub(a, b)) == Sub(MatVec(m, a), MatVec(m, b))
  {
  }

  /** Every frame of a bend leaves the knee where it is. */
  lemma BendFixesKnee(tr: Trig, progress: real, knee: Vec3)
    ensures Apply(Bend(tr, progress, knee), knee) == knee
  {
  }

  /** At progress 0 the bend moves no point at all. */
  lemma BendAtRest(tr: Trig, knee: Vec3, q: Vec3)
    requires TrigSane(tr)
    ensures Apply(Bend(tr, 0.0, knee), q) == q
  {
    RotXDegZero(tr);
    assert 0.0 * Angle == 0.0;
    MatVecI3(q);
    MatVecI3(knee);
  }

  /**
   * The animator's state: the phase and its step, both legs as last found,
   * the transforms recorded at start (keyed by segment), the running
   * signals, and the deferred phase changes not yet delivered.
   */
  datatype Climb = Climb(phase: Phase, step: int, left: Leg, right: Leg, originals: map<string, Affine>,
                         active: seq<MuscleSignal.Flash>, pending: seq<Phase>)

  function LegOf(c: Climb, s: Side): Leg {
    if s == Left then c.left else c.right
  }

  /** The animator as constructed: idle, no parts found, both knees at the origin. */
  const Init := Climb(Idle, 0, Leg([], [], Some(Zero)), Leg([], [], Some(Zero)), map[], [], [])

  /** A segment's transform, identity when it has none: what `_store_original_transforms` copies. */
  function TransformOr(s: Segment): Affine {
    s.transform.GetOr(Identity)
  }

  /** The recorded transform of `n`, identity when none was recorded (`original_transforms.get`). */
  function Recorded(originals: map<string, Affine>, n: string): Affine {
    if n in originals then originals[n] else Identity
  }

  function Snapshot(sc: Scene, names: seq<string>): (m: map<string, Affine>)
    ensures forall n :: n in m <==> n in names && n in sc.segs
    ensures forall n :: n in m ==> m[n] == TransformOr(sc.segs[n])
  {
    map n | n in names && n in sc.segs :: TransformOr(sc.segs[n])
  }

  /**
   * `start` (musculoskeletal_system.py:357-400): refuse while running; find
   * the right leg and stop if it is incomplete, then the same for the left;
   * only then record the bending parts' transforms and begin with the left
   * leg's signal. A refused start keeps whatever legs it found.
   */
  function Start(c: Climb, sc: Scene): (r: Climb)
    requires WellFormed(sc)
    ensures c.phase != Idle ==> r == c
    ensures c.phase == Idle ==>
      r.right == FindLeg(sc, Right) && r.step == c.step && r.active == c.active && r.pending == c.pending
    ensures c.phase == Idle ==> r.left == if Complete(r.right) then FindLeg(sc, Left) else c.left
    ensures c.phase == Idle ==> (r.phase != Idle <==> Complete(r.right) && Complete(r.left))
    ensures c.phase == Idle && r.phase == Idle ==> r.originals == c.originals
    ensures c.phase == Idle && r.phase != Idle ==>
      r.phase == SignalStart(Left) && r.originals == Snapshot(sc, r.right.moving + r.left.moving)
  {
    if c.phase != Idle then c
    else
      var right := FindLeg(sc, Right);
      if !Complete(right) then c.(right := right)
      else
        var left := FindLeg(sc, Left);
        if !Complete(left) then c.(right := right, left := left)
        else c.(right := right, left := left, phase := SignalStart(Left),
                originals := Snapshot(sc, right.moving + left.moving))
  }

  /**
   * A start that goes ahead records exactly the lower-leg parts of both
   * legs, each with the transform it has now (identity when it has none).
   */
  lemma StartRecords(c: Climb, sc: Scene)
    requires WellFormed(sc) && c.phase == Idle && Start(c, sc).phase != Idle
    ensures var r := Start(c, sc);
      && (forall n :: n in r.originals <==> n in sc.segs && (Moves(n, Left) || Moves(n, Right)))
      && (forall n :: n in r.originals ==> r.originals[n] == TransformOr(sc.segs[n]))
  {
    var r := Start(c, sc);
    assert r.right == FindLeg(sc, Right) && r.left == FindLeg(sc, Left);
  }

  // ---- Scene effects ----

  /** `_apply_transform_to_moving_parts`: each listed part is drawn with `bend` after its recorded transform. */
  function Bent(sc: Scene, names: seq<string>, bend: Affine, originals: map<string, Affine>): (r: Scene)
    ensures r.order == sc.order && r.segs.Keys == sc.segs.Keys
    ensures forall n :: n in sc.segs ==> r.segs[n] == sc.segs[n].(transform := r.segs[n].transform)
    ensures forall n :: n in sc.segs && n !in names ==> r.segs[n] == sc.segs[n]
    ensures forall n :: n in sc.segs && n in names ==>
      r.segs[n].transform == Some(Compose(bend, Recorded(originals, n)))
  {
    sc.(segs := map n | n in sc.segs ::
      if n in names then sc.segs[n].(transform := Some(Compose(bend, Recorded(originals, n)))) else sc.segs[n])
  }

  /** `_reset_all_transforms`: every recorded part gets its recorded transform back. */
  function Restored(sc: Scene, originals: map<string, Affine>): (r: Scene)
    ensures r.order == sc.order && r.segs.Keys == sc.segs.Keys
    ensures forall n :: n in sc.segs ==> r.segs[n] == sc.segs[n].(transform := r.segs[n].transform)
    ensures forall n :: n in sc.segs && n !in originals ==> r.segs[n] == sc.segs[n]
    ensures forall n :: n in sc.segs && n in originals ==> r.segs[n].transform == Some(originals[n])
  {
    sc.(segs := map n | n in sc.segs ::
      if n in originals then sc.segs[n].(transform := Some(originals[n])) else sc.segs[n])
  }

  /** The last running signal on segment `n`: the one whose effect a loop over the list leaves. */
  function FlashFor(fs: seq<MuscleSignal.Flash>, n: string): (r: Option<MuscleSignal.Flash>)
    ensures r.Some? ==> r.value in fs && r.value.name == n
    ensures r.None? <==> forall f :: f in fs ==> f.name != n
  {
    if fs == [] then None
    else if fs[|fs| - 1].name == n then Some(fs[|fs| - 1])
    else
      var r := FlashFor(fs[..|fs| - 1], n);
      assert fs == fs[..|fs| - 1] + [fs[|fs| - 1]];
      r
  }

  /**
   * One signal's stop: as written the specular power stays as the last
   * sweep painted it; the correction puts the recorded power back too.
   */
  function StopOne(f: MuscleSignal.Flash, s: Segment, how: Variant): (r: Segment)
    ensures r == s.(props := s.props.(color := f.color, ambient := f.ambient, diffuse := f.diffuse,
                                      specular := f.specular, specularPower := r.props.specularPower))
    ensures r.props.specularPower == if how == AsWritten then s.props.specularPower else f.specularPower
  {
    if how == AsWritten then MuscleSignal.StopAsWritten(f, s) else MuscleSignal.Stop(f, s)
  }

  /** `_stop_active_signals`: each signalled segment gets its recorded look back. */
  function StopSignals(fs: seq<MuscleSignal.Flash>, sc: Scene, how: Variant): (r: Scene)
    ensures r.order == sc.order && r.segs.Keys == sc.segs.Keys
    ensures forall n :: n in sc.segs && FlashFor(fs, n).None? ==> r.segs[n] == sc.segs[n]
    ensures forall n :: n in sc.segs && FlashFor(fs, n).Some? ==>
      r.segs[n] == StopOne(FlashFor(fs, n).value, sc.segs[n], how)
  {
    sc.(segs := map n | n in sc.segs ::
      match FlashFor(fs, n)
      case Some(f) => StopOne(f, sc.segs[n], how)
      case None => sc.segs[n])
  }

  /** The signals after `update_signal_animation`: each sweep restarted if it has run out. */
  function Restart(fs: seq<MuscleSignal.Flash>, now: real): (r: seq<MuscleSignal.Flash>)
    ensures |r| == |fs|
    ensures forall i :: 0 <= i < |fs| ==> r[i] == MuscleSignal.Restarted(fs[i], now)
  {
    if fs == [] then [] else Restart(fs[..|fs| - 1], now) + [MuscleSignal.Restarted(fs[|fs| - 1], now)]
  }

  /** The segments after `_update_active_signals`: each signalled segment repainted. */
  function Repaint(fs: seq<MuscleSignal.Flash>, sc: Scene, now: real, sqrt: real -> real): (r: Scene)
    ensures r.order == sc.order && r.segs.Keys == sc.segs.Keys
    ensures forall n :: n in sc.segs && FlashFor(fs, n).None? ==> r.segs[n] == sc.segs[n]
    ensures forall n :: n in sc.segs && FlashFor(fs, n).Some? ==>
      r.segs[n] == MuscleSignal.Update(FlashFor(fs, n).value, sc.segs[n], now, sqrt).1
  {
    sc.(segs := map n | n in sc.segs ::
      match FlashFor(fs, n)
      case Some(f) => MuscleSignal.Update(f, sc.segs[n], now, sqrt).1
      case None => sc.segs[n])
  }

  /** Restarting keeps which segments have a signal and what each signal recorded. */
  lemma {:induction false} RestartKeepsRecords(fs: seq<MuscleSignal.Flash>, now: real, n: string)
    ensures FlashFor(Restart(fs, now), n).Some? <==> FlashFor(fs, n).Some?
    ensures FlashFor(fs, n).Some? ==>
      FlashFor(Restart(fs, now), n).value == MuscleSignal.Restarted(FlashFor(fs, n).value, now)
    decreases |fs|
  {
    if fs != [] {
      var r := Restart(fs, now);
      assert r[..|r| - 1] == Restart(fs[..|fs| - 1], now);
      RestartKeepsRecords(fs[..|fs| - 1], now, n);
    }
  }

  /** `_start_signal_on_actors`: a fresh signal on each listed segment, recording its look now. */
  function Flashes(names: seq<string>, sc: Scene, now: real): (fs: seq<MuscleSignal.Flash>)
    ensures forall f :: f in fs ==> f.name in names && f.name in sc.segs
    ensures forall f :: f in fs ==> f == MuscleSignal.Create(f.name, sc.segs[f.name], now)
  {
    if names == [] then []
    else (if names[0] in sc.segs then [MuscleSignal.Create(names[0], sc.segs[names[0]], now)] else [])
         + Flashes(names[1..], sc, now)
  }

  // ---- _tick, _advance_state_to and stop (musculoskeletal_system.py:401-492) ----

  /** What a tick needs: the timer runs, and a bending leg has a knee. */
  predicate CanTick(c: Climb) {
    c.phase != Idle && ((c.phase.MoveUp? || c.phase.MoveDown?) ==> LegOf(c, c.phase.side).pivot.Some?)
  }

  /** The first part of a tick: running signals are advanced. */
  function Refresh(c: Climb, sc: Scene, now: real, sqrt: real -> real): (r: (Climb, Scene))
    ensures r.0 == c.(active := r.0.active)
    ensures r.1.order == sc.order && r.1.segs.Keys == sc.segs.Keys
  {
    if c.active != [] then (c.(active := Restart(c.active, now)), Repaint(c.active, sc, now, sqrt)) else (c, sc)
  }

  /** How far through the bend a frame is drawn: up from 0 to 1, then down from 1 to 0. */
  function BendProgress(p: Phase, step: int): real {
    if p.MoveUp? then step as real / Frames as real else 1.0 - step as real / Frames as real
  }

  /** A signal phase begins: the leg's signals started on the stopped scene, the end of the signal scheduled. */
  function Begin(c: Climb, sc: Scene, now: real, s: Side, how: Variant): (r: Climb)
    ensures r.phase == SignalRun(s) && r.step == 0 && r.pending == c.pending + [MoveUp(s)]
    ensures r.originals == c.originals && r.left == c.left && r.right == c.right
  {
    c.(phase := SignalRun(s), step := 0, active := Flashes(LegOf(c, s).signal, StopSignals(c.active, sc, how), now),
       pending := c.pending + [MoveUp(s)])
  }

  /** The phase's own work on the animator's state. */
  function Act(c: Climb, sc: Scene, now: real, how: Variant): (r: Climb)
    requires c.phase != Idle
    ensures r.phase == Advance(c.phase, c.step).0 && r.step == Advance(c.phase, c.step).1
    ensures r.originals == c.originals && r.left == c.left && r.right == c.right
  {
    match c.phase
    case SignalStart(s) => Begin(c, sc, now, s, how)
    case SignalRun(_) => c
    case _ => c.(phase := Advance(c.phase, c.step).0, step := Advance(c.phase, c.step).1)
  }

  /** A bending frame: the leg's lower parts drawn at this step's share of the bend. */
  function Frame(c: Climb, sc: Scene, tr: Trig, s: Side): (r: Scene)
    requires LegOf(c, s).pivot.Some?
    ensures r.order == sc.order && r.segs.Keys == sc.segs.Keys
  {
    var leg := LegOf(c, s);
    Bent(sc, leg.moving, Bend(tr, BendProgress(c.phase, c.step), leg.pivot.value), c.originals)
  }

  /** The phase's own work on the scene: stopping the old signals, or drawing a bending frame. */
  function Draw(c: Climb, sc: Scene, tr: Trig, how: Variant): (r: Scene)
    requires CanTick(c)
    ensures r.order == sc.order && r.segs.Keys == sc.segs.Keys
  {
    match c.phase
    case SignalStart(_) => StopSignals(c.active, sc, how)
    case SignalRun(_) => sc
    case MoveUp(s) => Frame(c, sc, tr, s)
    case MoveDown(s) => Frame(c, sc, tr, s)
  }

  /** `_tick`'s effect on the animator: one frame of the 33 ms timer, which runs while the sequence is not idle. */
  function TickState(c: Climb, sc: Scene, now: real, sqrt: real -> real, how: Variant): (r: Climb)
    requires c.phase != Idle
    ensures r.phase == Advance(c.phase, c.step).0 && r.step == Advance(c.phase, c.step).1
    ensures r.originals == c.originals && r.left == c.left && r.right == c.right
  {
    var u := Refresh(c, sc, now, sqrt);
    Act(u.0, u.1, now, how)
  }

  /** `_tick`'s effect on the scene. */
  function TickScene(c: Climb, sc: Scene, now: real, tr: Trig, sqrt: real -> real, how: Variant): (r: Scene)
    requires CanTick(c)
    ensures r.order == sc.order && r.segs.Keys == sc.segs.Keys
  {
    var u := Refresh(c, sc, now, sqrt);
    Draw(u.0, u.1, tr, how)
  }

  function Tick(c: Climb, sc: Scene, now: real, tr: Trig, sqrt: real -> real, how: Variant): (Climb, Scene)
    requires CanTick(c)
  {
    (TickState(c, sc, now, sqrt, how), TickScene(c, sc, now, tr, sqrt, how))
  }

  /**
   * `_advance_state_to`, the deferred change a signal phase schedules: it
   * acts only if the phase's name ends in `_RUN`, and then jumps to the
   * scheduled phase, whichever run scheduled it.
   */
  function Deliver(c: Climb, sc: Scene, how: Variant): (r: (Climb, Scene))
    requires c.pending != []
    ensures r.0.pending == c.pending[1..]
    ensures r.0.originals == c.originals && r.0.left == c.left && r.0.right == c.right
    ensures r.1.order == sc.order && r.1.segs.Keys == sc.segs.Keys
    ensures c.phase.SignalRun? ==> r.0.phase == c.pending[0] && r.0.step == 0 && r.0.active == []
    ensures !c.phase.SignalRun? ==> r == (c.(pending := c.pending[1..]), sc)
  {
    RunSuffix(c.phase);
    var c1 := c.(pending := c.pending[1..]);
    if EndsWith(StateName(c.phase), "_RUN") then
      (c1.(step := 0, phase := c.pending[0], active := []), StopSignals(c.active, sc, how))
    else (c1, sc)
  }

  /** What `stop` does to the scene: the signals stopped, then every recorded part given its record back. */
  function StopScene(c: Climb, sc: Scene, how: Variant): (r: Scene)
    ensures r.order == sc.order && r.segs.Keys == sc.segs.Keys
  {
    Restored(StopSignals(c.active, sc, how), c.originals)
  }

  /**
   * `stop` as written: signals stopped with the specular power left as
   * painted, transforms restored, idle; a scheduled change stays scheduled.
   */
  function StopAsWritten(c: Climb, sc: Scene): (r: (Climb, Scene))
    ensures r.0.phase == Idle && r.0.originals == map[] && r.0.active == [] && r.0.pending == c.pending
    ensures r.1.order == sc.order && r.1.segs.Keys == sc.segs.Keys
  {
    (c.(phase := Idle, originals := map[], active := []), StopScene(c, sc, AsWritten))
  }

  /**
   * `stop` corrected twice: the scheduled change is cancelled, as
   * `QTimer.stop` would do for a timer object, and each signal's stop puts
   * the recorded specular power back. The scene differs from the one the
   * stop as written leaves only in the specular power of the parts that
   * had a signal.
   */
  function Stop(c: Climb, sc: Scene): (r: (Climb, Scene))
    ensures r.0.phase == Idle && r.0.originals == map[] && r.0.active == [] && r.0.pending == []
    ensures r.1.order == sc.order && r.1.segs.Keys == sc.segs.Keys
    ensures forall n :: n in sc.segs ==>
      r.1.segs[n] == StopAsWritten(c, sc).1.segs[n].(props := StopAsWritten(c, sc).1.segs[n].props.(
        specularPower := if FlashFor(c.active, n).Some? then FlashFor(c.active, n).value.specularPower
                         else sc.segs[n].props.specularPower))
  {
    (c.(phase := Idle, originals := map[], active := [], pending := []), StopScene(c, sc, Corrected))
  }

  // ---- The sequence as a whole ----

  /** What the timers deliver: a frame of the 33 ms timer at a given time, or the single-shot timer going off. */
  datatype Event = Timer(now: real) | Shot

  /**
   * One event. The frame timer runs while the sequence is not idle (the
   * knee check never fails on a state that `Shape` describes); the
   * single-shot timer fires only while a change is scheduled.
   */
  function StepState(c: Climb, sc: Scene, e: Event, sqrt: real -> real, how: Variant): (r: Climb)
    ensures r.originals == c.originals && r.left == c.left && r.right == c.right
  {
    match e
    case Timer(now) => if CanTick(c) then TickState(c, sc, now, sqrt, how) else c
    case Shot => if c.pending != [] then Deliver(c, sc, how).0 else c
  }

  function StepScene(c: Climb, sc: Scene, e: Event, tr: Trig, sqrt: real -> real, how: Variant): (r: Scene)
    ensures r.order == sc.order && r.segs.Keys == sc.segs.Keys
  {
    match e
    case Timer(now) => if CanTick(c) then TickScene(c, sc, now, tr, sqrt, how) else sc
    case Shot => if c.pending != [] then Deliver(c, sc, how).1 else sc
  }

  function Step(c: Climb, sc: Scene, e: Event, tr: Trig, sqrt: real -> real, how: Variant): (Climb, Scene) {
    (StepState(c, sc, e, sqrt, how), StepScene(c, sc, e, tr, sqrt, how))
  }

  /** A run of events, with the signal stops as written or corrected. */
  function Run(c: Climb, sc: Scene, evs: seq<Event>, tr: Trig, sqrt: real -> real, how: Variant): (r: (Climb, Scene))
    ensures r.0.originals == c.originals && r.0.left == c.left && r.0.right == c.right
    ensures r.1.order == sc.order && r.1.segs.Keys == sc.segs.Keys
    decreases |evs|
  {
    if evs == [] then (c, sc)
    else Run(StepState(c, sc, evs[0], sqrt, how), StepScene(c, sc, evs[0], tr, sqrt, how), evs[1..], tr, sqrt, how)
  }

  /**
   * The shape of every state reachable when `stop` cancels the scheduled
   * change: a running sequence has both legs complete and every lower-leg
   * part recorded; exactly a signal-running phase has a change scheduled,
   * and it is that phase's own; signals run only in that phase.
   */
  ghost predicate Shape(c: Climb) {
    && (c.phase != Idle ==> Complete(c.left) && Complete(c.right))
    && (c.phase != Idle ==> forall n :: n in c.left.moving || n in c.right.moving ==> n in c.originals)
    && c.pending == (if c.phase.SignalRun? then [MoveUp(c.phase.side)] else [])
    && (!c.phase.SignalRun? ==> c.active == [])
  }

  lemma StartShape(c: Climb, sc: Scene)
    requires WellFormed(sc) && Shape(c)
    ensures Shape(Start(c, sc))
  {
    var r := Start(c, sc);
    if c.phase == Idle && r.phase != Idle {
      StartRecords(c, sc);
    }
  }

  /**
   * With the cancelling stop, every event keeps the shape, moves the phase
   * only to itself or its successor, and a delivered change always ends
   * the signal that scheduled it and starts that leg's bend.
   */
  lemma StepShape(c: Climb, sc: Scene, e: Event, tr: Trig, sqrt: real -> real, how: Variant)
    requires Shape(c)
    ensures var r := StepState(c, sc, e, sqrt, how);
      && Shape(r)
      && (r.phase == c.phase || r.phase == Next(c.phase))
      && (e.Shot? && c.pending != [] ==> c.phase.SignalRun? && r.phase == MoveUp(c.phase.side))
  {
    match e
    case Timer(now) =>
      if CanTick(c) {
        var u := Refresh(c, sc, now, sqrt);
        assert u.0.active == [] || c.phase.SignalRun?;
      }
    case Shot =>
  }

  /** The cancelling stop always leaves an idle state of the right shape. */
  lemma StopShape(c: Climb, sc: Scene)
    ensures Shape(Stop(c, sc).0)
  {
  }

  /**
   * The stale schedule as written: a stop while the right leg's signal
   * runs leaves its change scheduled. If the sequence is started again
   * before it goes off, it goes off while the new left signal runs and
   * jumps straight to bending the right leg: the left leg never bends in
   * that run, and the left signal's own change is still to come.
   */
  lemma StaleChangeSkipsLeftLeg(c0: Climb, sc0: Scene, sc: Scene, now: real, sqrt: real -> real)
    requires c0.phase == SignalRun(Right) && c0.pending == [MoveUp(Right)]
    requires WellFormed(sc) && Complete(FindLeg(sc, Right)) && Complete(FindLeg(sc, Left))
    ensures var c1 := StopAsWritten(c0, sc0).0;
      var c2 := Start(c1, sc);
      var c3 := TickState(c2, sc, now, sqrt, AsWritten);
      && c1.phase == Idle && c1.pending == [MoveUp(Right)]
      && c2.phase == SignalStart(Left)
      && c3.phase == SignalRun(Left) && c3.pending == [MoveUp(Right), MoveUp(Left)]
      && Deliver(c3, sc, AsWritten).0.phase == MoveUp(Right)
      && Deliver(c3, sc, AsWritten).0.pending == [MoveUp(Left)]
  {
    var c1 := StopAsWritten(c0, sc0).0;
    var c2 := Start(c1, sc);
    assert c2.phase == SignalStart(Left) && c2.pending == [MoveUp(Right)];
    StaleDelivery(c2, sc, now, sqrt);
  }

  /** A left signal started with the right leg's change still scheduled is cut off by it. */
  lemma StaleDelivery(c: Climb, sc: Scene, now: real, sqrt: real -> real)
    requires c.phase == SignalStart(Left) && c.pending == [MoveUp(Right)]
    ensures var c3 := TickState(c, sc, now, sqrt, AsWritten);
      && c3.phase == SignalRun(Left) && c3.pending == [MoveUp(Right), MoveUp(Left)]
      && Deliver(c3, sc, AsWritten).0.phase == MoveUp(Right)
      && Deliver(c3, sc, AsWritten).0.pending == [MoveUp(Left)]
  {
    var c3 := TickState(c, sc, now, sqrt, AsWritten);
    assert c3.pending == [MoveUp(Right)] + [MoveUp(Left)];
  }

  // ---- Start, run, stop: the scene comes back ----

  /**
   * The record `f` holds the four painted colour properties of `p`, and,
   * where the stop puts it back, the specular power too.
   */
  ghost predicate Took(f: MuscleSignal.Flash, p: Props, how: Variant) {
    && f.color == p.color && f.ambient == p.ambient && f.diffuse == p.diffuse && f.specular == p.specular
    && (how == Corrected ==> f.specularPower == p.specularPower)
  }

  /** `p` is `p0` up to the five properties a signal paints. */
  ghost predicate PaintedOver(p0: Props, p: Props) {
    p == p0.(color := p.color, ambient := p.ambient, diffuse := p.diffuse, specular := p.specular,
             specularPower := p.specularPower)
  }

  /** Every part either leg flashes is among `sig`. */
  ghost predicate SignalsIn(c: Climb, sig: set<string>) {
    forall n :: n in c.left.signal || n in c.right.signal ==> n in sig
  }

  /**
   * Segment `n` now (`s`) against the same segment at start (`s0`): only
   * the transform and the look may differ; an unrecorded part keeps its
   * transform. A segment without a running signal keeps its look up to the
   * specular power, and keeps that too unless an as-written stop left it
   * as painted on a part among `sig`. A segment with a signal is one of
   * `sig` and differs only in the painted properties, which its signal
   * recorded from the start look.
   */
  ghost predicate Holds(originals: map<string, Affine>, active: seq<MuscleSignal.Flash>, n: string,
                        s: Segment, s0: Segment, sig: set<string>, how: Variant) {
    && s == s0.(props := s.props, transform := s.transform)
    && (n !in originals ==> s.transform == s0.transform)
    && (FlashFor(active, n).None? ==> s.props == s0.props.(specularPower := s.props.specularPower))
    && (FlashFor(active, n).None? && (how == Corrected || n !in sig) ==> s.props == s0.props)
    && (FlashFor(active, n).Some? ==>
          n in sig && Took(FlashFor(active, n).value, s0.props, how) && PaintedOver(s0.props, s.props))
  }

  /** The scene `sc` against the scene `sc0` the sequence started from, with the records taken then. */
  ghost predicate Kept(originals: map<string, Affine>, active: seq<MuscleSignal.Flash>, sc: Scene, sc0: Scene,
                       sig: set<string>, how: Variant) {
    && sc.order == sc0.order && sc.segs.Keys == sc0.segs.Keys
    && (forall n :: n in originals ==> n in sc0.segs && originals[n] == TransformOr(sc0.segs[n]))
    && (forall n :: n in sc0.segs ==> Holds(originals, active, n, sc.segs[n], sc0.segs[n], sig, how))
  }

  lemma KeptStart(c: Climb, sc: Scene, sig: set<string>, how: Variant)
    requires WellFormed(sc) && c.phase == Idle && c.active == [] && Start(c, sc).phase != Idle
    ensures Kept(Start(c, sc).originals, Start(c, sc).active, sc, sc, sig, how)
  {
    var r := Start(c, sc);
    StartRecords(c, sc);
    assert r.active == [];
    forall n | n in sc.segs
      ensures Holds(r.originals, [], n, sc.segs[n], sc.segs[n], sig, how)
    {
      assert FlashFor([], n).None?;
    }
  }

  lemma KeptRefresh(c: Climb, sc: Scene, sc0: Scene, now: real, sqrt: real -> real, sig: set<string>, how: Variant)
    requires Kept(c.originals, c.active, sc, sc0, sig, how)
    ensures var u := Refresh(c, sc, now, sqrt); Kept(u.0.originals, u.0.active, u.1, sc0, sig, how)
  {
    if c.active != [] {
      var fs := Restart(c.active, now);
      var sc1 := Repaint(c.active, sc, now, sqrt);
      forall n | n in sc0.segs
        ensures Holds(c.originals, fs, n, sc1.segs[n], sc0.segs[n], sig, how)
      {
        RestartKeepsRecords(c.active, now, n);
        HoldsRepainted(c.originals, c.active, n, sc.segs[n], sc0.segs[n], now, sqrt, sig, how);
      }
    }
  }

  lemma KeptStop(originals: map<string, Affine>, active: seq<MuscleSignal.Flash>, sc: Scene, sc0: Scene,
                 sig: set<string>, how: Variant)
    requires Kept(originals, active, sc, sc0, sig, how)
    ensures Kept(originals, [], StopSignals(active, sc, how), sc0, sig, how)
  {
    var sc1 := StopSignals(active, sc, how);
    forall n | n in sc0.segs
      ensures Holds(originals, [], n, sc1.segs[n], sc0.segs[n], sig, how)
    {
      assert FlashFor([], n).None?;
      if FlashFor(active, n).Some? {
        var f := FlashFor(active, n).value;
        var p0 := sc0.segs[n].props;
        assert sc1.segs[n].props == p0.(specularPower := sc1.segs[n].props.specularPower);
      }
    }
  }

  lemma KeptBegin(originals: map<string, Affine>, names: seq<string>, sc: Scene, sc0: Scene, now: real,
                  sig: set<string>, how: Variant)
    requires Kept(originals, [], sc, sc0, sig, how)
    requires forall n :: n in names ==> n in sig
    ensures Kept(originals, Flashes(names, sc, now), sc, sc0, sig, how)
  {
    var fs := Flashes(names, sc, now);
    forall n | n in sc0.segs
      ensures Holds(originals, fs, n, sc.segs[n], sc0.segs[n], sig, how)
    {
      assert FlashFor([], n).None?;
    }
  }

  lemma KeptBent(originals: map<string, Affine>, active: seq<MuscleSignal.Flash>, sc: Scene, sc0: Scene,
                 names: seq<string>, bend: Affine, sig: set<string>, how: Variant)
    requires Kept(originals, active, sc, sc0, sig, how)
    requires forall n :: n in names ==> n in originals
    ensures Kept(originals, active, Bent(sc, names, bend, originals), sc0, sig, how)
  {
    var sc1 := Bent(sc, names, bend, originals);
    forall n | n in sc0.segs
      ensures Holds(originals, active, n, sc1.segs[n], sc0.segs[n], sig, how)
    {
    }
  }

  lemma KeptTick(c: Climb, sc: Scene, sc0: Scene, now: real, tr: Trig, sqrt: real -> real, sig: set<string>,
                 how: Variant)
    requires Shape(c) && CanTick(c) && SignalsIn(c, sig) && Kept(c.originals, c.active, sc, sc0, sig, how)
    ensures var r := TickState(c, sc, now, sqrt, how);
      Kept(r.originals, r.active, TickScene(c, sc, now, tr, sqrt, how), sc0, sig, how)
  {
    KeptRefresh(c, sc, sc0, now, sqrt, sig, how);
    match c.phase
    case SignalStart(s) => KeptSignalStart(c, sc, sc0, now, tr, sqrt, sig, how);
    case SignalRun(_) =>
    case MoveUp(s) => KeptFrame(c, sc, sc0, now, tr, sqrt, sig, how);
    case MoveDown(s) => KeptFrame(c, sc, sc0, now, tr, sqrt, sig, how);
  }

  lemma KeptSignalStart(c: Climb, sc: Scene, sc0: Scene, now: real, tr: Trig, sqrt: real -> real,
                        sig: set<string>, how: Variant)
    requires c.phase.SignalStart? && SignalsIn(c, sig)
    requires var u := Refresh(c, sc, now, sqrt); Kept(u.0.originals, u.0.active, u.1, sc0, sig, how)
    ensures var r := TickState(c, sc, now, sqrt, how);
      Kept(r.originals, r.active, TickScene(c, sc, now, tr, sqrt, how), sc0, sig, how)
  {
    var u := Refresh(c, sc, now, sqrt);
    KeptStop(c.originals, u.0.active, u.1, sc0, sig, how);
    KeptBegin(c.originals, LegOf(c, c.phase.side).signal, StopSignals(u.0.active, u.1, how), sc0, now, sig, how);
  }

  lemma KeptFrame(c: Climb, sc: Scene, sc0: Scene, now: real, tr: Trig, sqrt: real -> real,
                  sig: set<string>, how: Variant)
    requires Shape(c) && (c.phase.MoveUp? || c.phase.MoveDown?)
    requires Kept(c.originals, c.active, sc, sc0, sig, how)
    ensures var r := TickState(c, sc, now, sqrt, how);
      Kept(r.originals, r.active, TickScene(c, sc, now, tr, sqrt, how), sc0, sig, how)
  {
    var leg := LegOf(c, c.phase.side);
    assert TickScene(c, sc, now, tr, sqrt, how) == Frame(c, sc, tr, c.phase.side);
    KeptBent(c.originals, [], sc, sc0, leg.moving, Bend(tr, BendProgress(c.phase, c.step), leg.pivot.value), sig, how);
  }

  lemma HoldsRepainted(originals: map<string, Affine>, fs: seq<MuscleSignal.Flash>, n: string, s: Segment, s0: Segment,
                       now: real, sqrt: real -> real, sig: set<string>, how: Variant)
    requires Holds(originals, fs, n, s, s0, sig, how)
    requires FlashFor(Restart(fs, now), n).Some? <==> FlashFor(fs, n).Some?
    requires FlashFor(fs, n).Some? ==>
      FlashFor(Restart(fs, now), n).value == MuscleSignal.Restarted(FlashFor(fs, n).value, now)
    ensures FlashFor(fs, n).Some? ==>
      Holds(originals, Restart(fs, now), n, MuscleSignal.Update(FlashFor(fs, n).value, s, now, sqrt).1, s0, sig, how)
    ensures FlashFor(fs, n).None? ==> Holds(originals, Restart(fs, now), n, s, s0, sig, how)
  {
    if FlashFor(fs, n).Some? {
      var f := FlashFor(fs, n).value;
      assert Took(MuscleSignal.Restarted(f, now), s0.props, how);
    }
  }

  lemma KeptDeliver(c: Climb, sc: Scene, sc0: Scene, sig: set<string>, how: Variant)
    requires c.pending != [] && Kept(c.originals, c.active, sc, sc0, sig, how)
    ensures var r := Deliver(c, sc, how); Kept(r.0.originals, r.0.active, r.1, sc0, sig, how)
  {
    if c.phase.SignalRun? {
      KeptStop(c.originals, c.active, sc, sc0, sig, how);
    }
  }

  lemma KeptStep(c: Climb, sc: Scene, sc0: Scene, e: Event, tr: Trig, sqrt: real -> real, sig: set<string>,
                 how: Variant)
    requires Shape(c) && SignalsIn(c, sig) && Kept(c.originals, c.active, sc, sc0, sig, how)
    ensures var r := StepState(c, sc, e, sqrt, how);
      Kept(r.originals, r.active, StepScene(c, sc, e, tr, sqrt, how), sc0, sig, how)
  {
    match e
    case Timer(now) =>
      if CanTick(c) {
        KeptTick(c, sc, sc0, now, tr, sqrt, sig, how);
      }
    case Shot =>
      if c.pending != [] {
        KeptDeliver(c, sc, sc0, sig, how);
      }
  }

  lemma {:induction false} KeptRun(c: Climb, sc: Scene, sc0: Scene, evs: seq<Event>, tr: Trig, sqrt: real -> real,
                                   sig: set<string>, how: Variant)
    requires Shape(c) && SignalsIn(c, sig) && Kept(c.originals, c.active, sc, sc0, sig, how)
    ensures var r := Run(c, sc, evs, tr, sqrt, how); Shape(r.0) && Kept(r.0.originals, r.0.active, r.1, sc0, sig, how)
    decreases |evs|
  {
    if evs != [] {
      StepShape(c, sc, evs[0], tr, sqrt, how);
      KeptStep(c, sc, sc0, evs[0], tr, sqrt, sig, how);
      var c1 := StepState(c, sc, evs[0], sqrt, how);
      assert SignalsIn(c1, sig);
      KeptRun(c1, StepScene(c, sc, evs[0], tr, sqrt, how), sc0, evs[1..], tr, sqrt, sig, how);
    }
  }

  /**
   * Stopping from a kept scene gives back the start scene, with the
   * recorded parts set to their records, up to the specular power, which
   * comes back too unless an as-written stop left it as painted on a part
   * among `sig`.
   */
  lemma KeptStopRestores(c: Climb, sc: Scene, sc0: Scene, sig: set<string>, how: Variant)
    requires Kept(c.originals, c.active, sc, sc0, sig, how)
    ensures var r := StopScene(c, sc, how);
      && r.order == sc0.order && r.segs.Keys == sc0.segs.Keys
      && forall n :: n in sc0.segs ==>
        && r.segs[n] == sc0.segs[n].(transform := if n in c.originals then Some(TransformOr(sc0.segs[n]))
                                                 else sc0.segs[n].transform,
                                     props := sc0.segs[n].props.(specularPower := r.segs[n].props.specularPower))
        && (how == Corrected || n !in sig ==> r.segs[n].props.specularPower == sc0.segs[n].props.specularPower)
  {
    KeptStop(c.originals, c.active, sc, sc0, sig, how);
  }

  /** The parts either leg of a scene flashes. */
  function SignalParts(sc: Scene): (r: set<string>)
    ensures forall n :: n in r <==> n in sc.segs && (Signals(n, Left) || Signals(n, Right))
  {
    set n | n in sc.segs && (Signals(n, Left) || Signals(n, Right))
  }

  /** A started climb's legs flash only parts `SignalParts` names. */
  lemma StartSignalsIn(c: Climb, sc: Scene)
    requires WellFormed(sc) && c.phase == Idle && Start(c, sc).phase != Idle
    ensures SignalsIn(Start(c, sc), SignalParts(sc))
  {
    var r := Start(c, sc);
    assert r.right == FindLeg(sc, Right) && r.left == FindLeg(sc, Left);
  }

  /**
   * The round trip as written: start the sequence on a scene, let any
   * events happen, stop it, and every segment is as it was at start,
   * except that a lower-leg part that had no transform now has the
   * identity one, and a part that showed a signal may keep the specular
   * power its last sweep painted. Every other part keeps its specular
   * power.
   */
  lemma ClimbThenStop(c: Climb, sc: Scene, evs: seq<Event>, tr: Trig, sqrt: real -> real)
    requires WellFormed(sc) && Shape(c) && c.phase == Idle && Start(c, sc).phase != Idle
    ensures var r := Run(Start(c, sc), sc, evs, tr, sqrt, AsWritten);
      var sc1 := StopAsWritten(r.0, r.1).1;
      && sc1.order == sc.order && sc1.segs.Keys == sc.segs.Keys
      && forall n :: n in sc.segs ==>
        && sc1.segs[n] == sc.segs[n].(transform := if Moves(n, Left) || Moves(n, Right) then Some(TransformOr(sc.segs[n]))
                                                   else sc.segs[n].transform,
                                      props := sc.segs[n].props.(specularPower := sc1.segs[n].props.specularPower))
        && (!Signals(n, Left) && !Signals(n, Right) ==> sc1.segs[n].props.specularPower == sc.segs[n].props.specularPower)
  {
    var c1 := Start(c, sc);
    StartShape(c, sc);
    StartRecords(c, sc);
    StartSignalsIn(c, sc);
    KeptStart(c, sc, SignalParts(sc), AsWritten);
    KeptRun(c1, sc, sc, evs, tr, sqrt, SignalParts(sc), AsWritten);
    var r := Run(c1, sc, evs, tr, sqrt, AsWritten);
    KeptStopRestores(r.0, r.1, sc, SignalParts(sc), AsWritten);
  }

  /**
   * The round trip with the corrected stops: every segment is exactly as
   * it was at start, except that a lower-leg part that had no transform
   * now has the identity one.
   */
  lemma ClimbThenStopCorrected(c: Climb, sc: Scene, evs: seq<Event>, tr: Trig, sqrt: real -> real)
    requires WellFormed(sc) && Shape(c) && c.phase == Idle && Start(c, sc).phase != Idle
    ensures var r := Run(Start(c, sc), sc, evs, tr, sqrt, Corrected);
      var sc1 := Stop(r.0, r.1).1;
      && sc1.order == sc.order && sc1.segs.Keys == sc.segs.Keys
      && forall n :: n in sc.segs ==>
        sc1.segs[n] == sc.segs[n].(transform := if Moves(n, Left) || Moves(n, Right) then Some(TransformOr(sc.segs[n]))
                                                else sc.segs[n].transform)
  {
    var c1 := Start(c, sc);
    StartShape(c, sc);
    StartRecords(c, sc);
    StartSignalsIn(c, sc);
    KeptStart(c, sc, SignalParts(sc), Corrected);
    KeptRun(c1, sc, sc, evs, tr, sqrt, SignalParts(sc), Corrected);
    var r := Run(c1, sc, evs, tr, sqrt, Corrected);
    KeptStopRestores(r.0, r.1, sc, SignalParts(sc), Corrected);
  }

  // ---- What a bending frame draws ----

  /**
   * The first frame of the upward bend and the last frame of the downward
   * one draw each lower-leg part exactly where its recorded transform puts
   * it: the leg starts and ends straight.
   */
  lemma BendEndsAtRest(c: Climb, sc: Scene, now: real, tr: Trig, sqrt: real -> real, n: string, q: Vec3, how: Variant)
    requires TrigSane(tr) && Shape(c)
    requires (c.phase.MoveUp? && c.step == 0) || (c.phase.MoveDown? && c.step == Frames)
    requires n in sc.segs && n in LegOf(c, c.phase.side).moving
    ensures var t := TickScene(c, sc, now, tr, sqrt, how).segs[n].transform;
      t.Some? && Apply(t.value, q) == Apply(c.originals[n], q)
  {
    var knee := LegOf(c, c.phase.side).pivot.value;
    assert BendProgress(c.phase, c.step) == 0.0;
    assert TickScene(c, sc, now, tr, sqrt, how).segs[n].transform == Some(Compose(Bend(tr, 0.0, knee), c.originals[n]));
    ApplyCompose(Bend(tr, 0.0, knee), c.originals[n], q);
    BendAtRest(tr, knee, Apply(c.originals[n], q));
  }

  /**
   * In every bending frame, the point of a lower-leg part that its
   * recorded transform puts on the knee stays on the knee: the lower leg
   * turns about the knee and does not drift.
   */
  lemma KneeStays(c: Climb, sc: Scene, now: real, tr: Trig, sqrt: real -> real, n: string, q: Vec3, how: Variant)
    requires Shape(c) && (c.phase.MoveUp? || c.phase.MoveDown?)
    requires n in sc.segs && n in LegOf(c, c.phase.side).moving
    requires Apply(c.originals[n], q) == LegOf(c, c.phase.side).pivot.value
    ensures var t := TickScene(c, sc, now, tr, sqrt, how).segs[n].transform;
      t.Some? && Apply(t.value, q) == LegOf(c, c.phase.side).pivot.value
  {
    var knee := LegOf(c, c.phase.side).pivot.value;
    var b := Bend(tr, BendProgress(c.phase, c.step), knee);
    assert TickScene(c, sc, now, tr, sqrt, how).segs[n].transform == Some(Compose(b, c.originals[n]));
    ApplyCompose(b, c.originals[n], q);
    BendFixesKnee(tr, BendProgress(c.phase, c.step), knee);
  }

  /**
   * When the last downward frame of the right leg ends the sequence by
   * itself, the records are kept: unlike `stop`, the natural end leaves
   * every lower-leg part owned by the animator.
   */
  lemma FinishKeepsRecords(c: Climb, sc: Scene, now: real, sqrt: real -> real, how: Variant)
    requires Shape(c) && c.phase == MoveDown(Right) && c.step == Frames
    ensures var r := TickState(c, sc, now, sqrt, how);
      && r.phase == Idle && r.originals == c.originals
      && forall n :: n in c.left.moving || n in c.right.moving ==> n in r.originals
  {
  }

  // ---- apply_precise_rotation and reset_rotation (musculoskeletal_system.py:2249-2268) ----

  function RotYDeg(tr: Trig, d: real): Affine { RotY(CosDeg(tr, d), SinDeg(tr, d)) }
  function RotZDeg(tr: Trig, d: real): Affine { RotZ(CosDeg(tr, d), SinDeg(tr, d)) }

  /** `RotateX(x)`, `RotateY(y)`, `RotateZ(z)` on one transform: Z acts first, then Y, then X. */
  function PreciseRotation(tr: Trig, x: real, y: real, z: real): Affine {
    Compose(RotXDeg(tr, x), Compose(RotYDeg(tr, y), RotZDeg(tr, z)))
  }

  /** With all three sliders at 0 the rotation moves no point. */
  lemma PreciseRotationAtZero(tr: Trig, q: Vec3)
    requires TrigSane(tr)
    ensures Apply(PreciseRotation(tr, 0.0, 0.0, 0.0), q) == q
  {
    assert 0.0 * tr.pi / 180.0 == 0.0;
    Unturned(RotXDeg(tr, 0.0), RotYDeg(tr, 0.0), RotZDeg(tr, 0.0), q);
  }

  lemma Unturned(a: Affine, b: Affine, c: Affine, q: Vec3)
    requires a == Identity && b == Identity && c == Identity
    ensures Apply(Compose(a, Compose(b, c)), q) == q
  {
    ApplyCompose(a, Compose(b, c), q);
    ApplyCompose(b, c, q);
    MatVecI3(q);
  }

  /** `apply_precise_rotation`: every segment the climb has no record for gets the rotation. */
  function RotateUnowned(sc: Scene, owned: map<string, Affine>, t: Affine): (r: Scene)
    ensures r.order == sc.order && r.segs.Keys == sc.segs.Keys
    ensures forall n :: n in sc.segs && n in owned ==> r.segs[n] == sc.segs[n]
    ensures forall n :: n in sc.segs && n !in owned ==> r.segs[n] == sc.segs[n].(transform := Some(t))
  {
    sc.(segs := map n | n in sc.segs :: if n in owned then sc.segs[n] else sc.segs[n].(transform := Some(t)))
  }

  /** `reset_rotation`: every segment the climb has no record for loses its transform. */
  function ResetUnowned(sc: Scene, owned: map<string, Affine>): (r: Scene)
    ensures r.order == sc.order && r.segs.Keys == sc.segs.Keys
    ensures forall n :: n in sc.segs && n in owned ==> r.segs[n] == sc.segs[n]
    ensures forall n :: n in sc.segs && n !in owned ==> r.segs[n] == sc.segs[n].(transform := None)
  {
    sc.(segs := map n | n in sc.segs :: if n in owned then sc.segs[n] else sc.segs[n].(transform := None))
  }

  /** While the sequence runs, neither rotation control touches a lower-leg part of either leg. */
  lemma RotationSparesLegs(c: Climb, sc: Scene, t: Affine, n: string)
    requires Shape(c) && c.phase != Idle
    requires n in sc.segs && (n in c.left.moving || n in c.right.moving)
    ensures RotateUnowned(sc, c.originals, t).segs[n] == sc.segs[n]
    ensures ResetUnowned(sc, c.originals).segs[n] == sc.segs[n]
  {
  }

  /** After `stop` the records are gone and both controls reach every segment. */
  lemma StopReleasesLegs(c: Climb, sc: Scene, sc1: Scene, t: Affine, n: string)
    requires n in sc1.segs
    ensures RotateUnowned(sc1, StopAsWritten(c, sc).0.originals, t).segs[n].transform == Some(t)
    ensures ResetUnowned(sc1, StopAsWritten(c, sc).0.originals).segs[n].transform == None
  {
  }
}
