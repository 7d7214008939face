/**
 * The dental viewer's `NeuralSignalAnimator`: a 75-tick flash that sweeps a
 * band along each visible tooth's height (crown to root for lower teeth,
 * root to crown for upper ones), tints the tooth towards a pale blue, and
 * restores the tooth's own colour, ambient and diffuse when it ends. The
 * square root of the band profile is supplied by the caller.
 */
module DentalSignal {
  import opened Wrappers
  import opened Text
  import opened Geometry
  import opened Scene

  /** Ticks in one flash (about 2.5 s at 30 fps). */
  const Duration := 75

  /** The colour a tooth is tinted towards. */
  const SignalColor := Color(0.7, 0.85, 1.0)

  /**
   * One entry of `teeth_data`: the band runs from `zStart` to `zEnd` of the
   * untransformed mesh; `color`, `ambient` and `diffuse` are the properties
   * the tooth had when it was prepared.
   */
  datatype Tooth = Tooth(name: string, isLower: bool, zStart: real, zEnd: real, zCenter: real,
                         color: Color, ambient: real, diffuse: real)

  // ---- prepare_teeth_for_signal (dental_system.py:105-154) ----

  /** A segment the flash animates: visible, and its lower-cased name mentions `tooth`. */
  predicate IsTooth(n: string, s: Segment) { Mentions(n, "tooth") && s.visible }

  /** The record prepared for one tooth: lower teeth sweep from the top of the mesh down, upper teeth up. */
  function ToothOf(n: string, s: Segment): (t: Tooth)
    ensures t.name == n && t.isLower == Mentions(n, "lower")
    ensures t.isLower ==> t.zStart == s.dataBounds.zmax && t.zEnd == s.dataBounds.zmin
    ensures !t.isLower ==> t.zStart == s.dataBounds.zmin && t.zEnd == s.dataBounds.zmax
    ensures t.color == s.props.color && t.ambient == s.props.ambient && t.diffuse == s.props.diffuse
  {
    var b := s.dataBounds;
    var lower := Mentions(n, "lower");
    Tooth(n, lower, if lower then b.zmax else b.zmin, if lower then b.zmin else b.zmax,
          (b.zmin + b.zmax) / 2.0, s.props.color, s.props.ambient, s.props.diffuse)
  }

  /** The names of a tooth list, in order. */
  function Names(ts: seq<Tooth>): (r: seq<string>)
    ensures |r| == |ts| && forall i :: 0 <= i < |ts| ==> r[i] == ts[i].name
  {
    if ts == [] then [] else [ts[0].name] + Names(ts[1..])
  }

  /** The teeth among `names`, in the given order. */
  function PrepareFrom(sc: Scene, names: seq<string>): seq<Tooth>
    requires forall i :: 0 <= i < |names| ==> names[i] in sc.segs
  {
    if names == [] then []
    else
      var rest := PrepareFrom(sc, names[1..]);
      if IsTooth(names[0], sc.segs[names[0]]) then [ToothOf(names[0], sc.segs[names[0]])] + rest else rest
  }

  /** Every record is the snapshot of its own segment. */
  ghost predicate Snapshots(sc: Scene, ts: seq<Tooth>) {
    forall i :: 0 <= i < |ts| ==> ts[i].name in sc.segs && ts[i] == ToothOf(ts[i].name, sc.segs[ts[i].name])
  }

  ghost predicate DistinctNames(ts: seq<Tooth>) {
    forall i, j :: 0 <= i < j < |ts| ==> ts[i].name != ts[j].name
  }

  /** Each record of `PrepareFrom` is its segment's snapshot. */
  lemma {:induction false} PrepareFromSnapshots(sc: Scene, names: seq<string>)
    requires forall i :: 0 <= i < |names| ==> names[i] in sc.segs
    ensures Snapshots(sc, PrepareFrom(sc, names))
    decreases |names|
  {
    if names != [] {
      PrepareFromSnapshots(sc, names[1..]);
    }
  }

  /** `PrepareFrom` keeps exactly the teeth among `names`. */
  lemma {:induction false} PrepareFromNames(sc: Scene, names: seq<string>)
    requires forall i :: 0 <= i < |names| ==> names[i] in sc.segs
    ensures forall n :: n in Names(PrepareFrom(sc, names)) <==> n in names && IsTooth(n, sc.segs[n])
    decreases |names|
  {
    if names != [] {
      var rest := PrepareFrom(sc, names[1..]);
      PrepareFromNames(sc, names[1..]);
      assert forall n :: n in names <==> n == names[0] || n in names[1..];
      if IsTooth(names[0], sc.segs[names[0]]) {
        assert Names([ToothOf(names[0], sc.segs[names[0]])] + rest) == [names[0]] + Names(rest);
      }
    }
  }

  /** Distinct names give distinct records. */
  lemma {:induction false} PrepareFromDistinct(sc: Scene, names: seq<string>)
    requires forall i :: 0 <= i < |names| ==> names[i] in sc.segs
    requires forall i, j :: 0 <= i < j < |names| ==> names[i] != names[j]
    ensures DistinctNames(PrepareFrom(sc, names))
    decreases |names|
  {
    if names != [] {
      var rest := PrepareFrom(sc, names[1..]);
      PrepareFromDistinct(sc, names[1..]);
      PrepareFromNames(sc, names[1..]);
      if IsTooth(names[0], sc.segs[names[0]]) {
        forall i | 0 <= i < |rest| ensures rest[i].name != names[0] {
          assert Names(rest)[i] == rest[i].name;
          assert rest[i].name in names[1..];
        }
      }
    }
  }

  /** `prepare_teeth_for_signal`: every visible tooth, in registry order. */
  function Prepare(sc: Scene): (ts: seq<Tooth>)
    requires WellFormed(sc)
    ensures forall n :: n in Names(ts) <==> n in sc.segs && IsTooth(n, sc.segs[n])
    ensures Snapshots(sc, ts) && DistinctNames(ts)
  {
    PrepareFromSnapshots(sc, sc.order);
    PrepareFromNames(sc, sc.order);
    PrepareFromDistinct(sc, sc.order);
    PrepareFrom(sc, sc.order)
  }

  // ---- restore_original_properties (dental_system.py:155-163) ----

  /** The last record for a name: later entries overwrite earlier ones when the list is applied in order. */
  function FindLast(ts: seq<Tooth>, n: string): (r: Option<Tooth>)
    ensures r.None? <==> n !in Names(ts)
    ensures r.Some? ==> r.value in ts && r.value.name == n
  {
    if ts == [] then None
    else if ts[|ts| - 1].name == n then Some(ts[|ts| - 1])
    else
      var r := FindLast(ts[..|ts| - 1], n);
      NamesLast(ts);
      r
  }

  lemma NamesLast(ts: seq<Tooth>)
    requires ts != []
    ensures forall m :: m in Names(ts) <==> m in Names(ts[..|ts| - 1]) || m == ts[|ts| - 1].name
  {
    var a, b := Names(ts), Names(ts[..|ts| - 1]);
    forall m | m in a ensures m in b || m == ts[|ts| - 1].name {
      var i :| 0 <= i < |a| && a[i] == m;
      if i < |ts| - 1 { assert b[i] == m; }
    }
    forall m | m in b ensures m in a {
      var i :| 0 <= i < |b| && b[i] == m;
      assert a[i] == m;
    }
  }

  /** A tooth's colour, ambient and diffuse put back; everything else kept. */
  function RestoreOne(s: Segment, t: Tooth): (r: Segment)
    ensures r.props.color == t.color && r.props.ambient == t.ambient && r.props.diffuse == t.diffuse
  {
    s.(props := s.props.(color := t.color, ambient := t.ambient, diffuse := t.diffuse))
  }

  /** `restore_original_properties`: each prepared tooth gets back its recorded colour, ambient and diffuse. */
  function Restore(sc: Scene, ts: seq<Tooth>): (r: Scene)
    ensures r.order == sc.order && r.segs.Keys == sc.segs.Keys
    ensures forall n :: n in sc.segs && n !in Names(ts) ==> r.segs[n] == sc.segs[n]
    ensures forall n :: n in sc.segs && n in Names(ts) ==>
      r.segs[n] == RestoreOne(sc.segs[n], FindLast(ts, n).value)
  {
    sc.(segs := map n | n in sc.segs ::
      match FindLast(ts, n)
      case Some(t) => RestoreOne(sc.segs[n], t)
      case None => sc.segs[n])
  }

  /** Restoring right after preparing changes nothing: the records hold the live properties. */
  lemma PrepareThenRestore(sc: Scene)
    requires WellFormed(sc)
    ensures Restore(sc, Prepare(sc)) == sc
  {
    RestoreFromSnapshots(sc, Prepare(sc));
  }

  /** Restoring from records that are snapshots of the scene changes nothing. */
  lemma RestoreFromSnapshots(sc: Scene, ts: seq<Tooth>)
    requires Snapshots(sc, ts)
    ensures Restore(sc, ts) == sc
  {
    var r := Restore(sc, ts);
    forall n | n in sc.segs ensures r.segs[n] == sc.segs[n] {
      if n in Names(ts) {
        RestoreSnapshot(sc, ts, n);
      }
    }
    assert r.segs == sc.segs;
  }

  /** Restoring a segment from its own snapshot leaves it as it is. */
  lemma RestoreSnapshot(sc: Scene, ts: seq<Tooth>, n: string)
    requires Snapshots(sc, ts) && n in Names(ts)
    ensures RestoreOne(sc.segs[n], FindLast(ts, n).value) == sc.segs[n]
  {
    var t := FindLast(ts, n).value;
    var i :| 0 <= i < |ts| && ts[i] == t;
    assert t == ToothOf(n, sc.segs[n]);
  }

  // ---- one frame of update_signal_animation (dental_system.py:191-227) ----

  function Abs(x: real): real { if x < 0.0 then -x else x }

  /** The band's travel: the mesh height, or 1 for a flat mesh. */
  function ZRange(t: Tooth): (r: real)
    ensures r > 0.0
  {
    if Abs(t.zEnd - t.zStart) == 0.0 then 1.0 else Abs(t.zEnd - t.zStart)
  }

  /** The band's half-width: a fifth of the travel. */
  function Thickness(t: Tooth): (r: real)
    ensures r > 0.0
  {
    ZRange(t) * 0.2
  }

  /** Where the band is at `progress`: moving down from the start for lower teeth, up for upper ones. */
  function BandZ(t: Tooth, progress: real): real {
    if t.isLower then t.zStart - progress * ZRange(t) else t.zStart + progress * ZRange(t)
  }

  /** The tooth centre's distance from the band. */
  function Distance(t: Tooth, progress: real): (d: real)
    ensures d >= 0.0
  {
    Abs(t.zCenter - BandZ(t, progress))
  }

  /** `(1 - d / thickness) ** 0.5` inside the band, 0 outside. */
  function Intensity(t: Tooth, progress: real, sqrt: real -> real): (i: real)
    ensures Distance(t, progress) >= Thickness(t) ==> i == 0.0
    ensures SqrtSane(sqrt) ==> 0.0 <= i <= 1.0
  {
    var d := Distance(t, progress);
    if d < Thickness(t) then
      BandFraction(d, Thickness(t));
      sqrt(1.0 - d / Thickness(t))
    else 0.0
  }

  lemma BandFraction(d: real, th: real)
    requires 0.0 <= d < th
    ensures 0.0 < 1.0 - d / th <= 1.0
  {
  }

  /** One tooth's look in a frame: tinted towards the signal colour and lit a little more. */
  function ToothLook(s: Segment, t: Tooth, progress: real, sqrt: real -> real): Segment {
    var i := Intensity(t, progress, sqrt);
    s.(props := s.props.(color := Mix(t.color, SignalColor, i),
                         ambient := t.ambient + i * 0.2,
                         diffuse := t.diffuse + i * 0.1))
  }

  /**
   * Every channel of the tint lies between the recorded colour and the
   * signal colour, ambient rises by at most 0.2 and diffuse by at most 0.1;
   * a tooth outside the band shows exactly its recorded properties.
   */
  lemma ToothLookBounds(s: Segment, t: Tooth, progress: real, sqrt: real -> real)
    requires SqrtSane(sqrt)
    ensures var r := ToothLook(s, t, progress, sqrt);
      && ColorBetween(r.props.color, t.color, SignalColor)
      && t.ambient <= r.props.ambient <= t.ambient + 0.2
      && t.diffuse <= r.props.diffuse <= t.diffuse + 0.1
      && (Distance(t, progress) >= Thickness(t) ==> r == RestoreOne(s, t))
  {
    var i := Intensity(t, progress, sqrt);
    MixBetween(t.color, SignalColor, i);
  }

  /** One frame: every prepared tooth drawn at `progress`. */
  function Frame(sc: Scene, ts: seq<Tooth>, progress: real, sqrt: real -> real): (r: Scene)
    ensures r.order == sc.order && r.segs.Keys == sc.segs.Keys
    ensures forall n :: n in sc.segs && n !in Names(ts) ==> r.segs[n] == sc.segs[n]
    ensures forall n :: n in sc.segs && n in Names(ts) ==>
      r.segs[n] == ToothLook(sc.segs[n], FindLast(ts, n).value, progress, sqrt)
  {
    sc.(segs := map n | n in sc.segs ::
      match FindLast(ts, n)
      case Some(t) => ToothLook(sc.segs[n], t, progress, sqrt)
      case None => sc.segs[n])
  }

  /** Two scenes that differ at most in the colour, ambient and diffuse of the listed teeth. */
  ghost predicate LookAlike(a: Scene, b: Scene, ts: seq<Tooth>) {
    && a.order == b.order && a.segs.Keys == b.segs.Keys
    && forall n :: n in a.segs ==>
      if n in Names(ts)
      then b.segs[n] == a.segs[n].(props := a.segs[n].props.(color := b.segs[n].props.color,
             ambient := b.segs[n].props.ambient, diffuse := b.segs[n].props.diffuse))
      else b.segs[n] == a.segs[n]
  }

  /** A frame only repaints the teeth. */
  lemma FrameLooksAlike(sc: Scene, ts: seq<Tooth>, progress: real, sqrt: real -> real)
    ensures LookAlike(sc, Frame(sc, ts, progress, sqrt), ts)
  {
  }

  /** A restore only repaints the teeth. */
  lemma RestoreLooksAlike(sc: Scene, ts: seq<Tooth>)
    ensures LookAlike(sc, Restore(sc, ts), ts)
  {
  }

  lemma LookAlikeTrans(a: Scene, b: Scene, c: Scene, ts: seq<Tooth>)
    requires LookAlike(a, b, ts) && LookAlike(b, c, ts)
    ensures LookAlike(a, c, ts)
  {
  }

  /** Scenes that differ only in the teeth's look are equal once restored. */
  lemma RestoreForgetsLook(a: Scene, b: Scene, ts: seq<Tooth>)
    requires LookAlike(a, b, ts)
    ensures Restore(a, ts) == Restore(b, ts)
  {
    var ra, rb := Restore(a, ts), Restore(b, ts);
    forall n | n in a.segs ensures ra.segs[n] == rb.segs[n] {
    }
    assert ra.segs == rb.segs;
  }

  // ---- the animator (dental_system.py:91-236) ----

  /**
   * The animator's state: tick counter, busy flag, prepared teeth and the
   * completion callback (of whatever type the caller uses). The timer runs
   * exactly while `animating` holds.
   */
  datatype Signal<C> = Signal(step: int, animating: bool, teeth: seq<Tooth>, callback: Option<C>)

  function Init<C>(): Signal<C> { Signal(0, false, [], None) }

  /** `prepare_teeth_for_signal` on the animator. */
  function Prepared<C>(a: Signal<C>, sc: Scene): (r: Signal<C>)
    requires WellFormed(sc)
    ensures r == a.(teeth := Prepare(sc))
  {
    a.(teeth := Prepare(sc))
  }

  /**
   * `start_signal_animation`: ignored while busy; otherwise restore the
   * prepared teeth, reset the tick counter, take the callback and run.
   */
  function Start<C>(a: Signal<C>, sc: Scene, callback: Option<C>): (r: (Signal<C>, Scene))
    ensures a.animating ==> r == (a, sc)
    ensures !a.animating ==>
      r.0 == a.(step := 0, animating := true, callback := callback) && r.1 == Restore(sc, a.teeth)
  {
    if a.animating then (a, sc)
    else (a.(step := 0, animating := true, callback := callback), Restore(sc, a.teeth))
  }

  /** The result of a tick: the animator, the scene, and the callback to run now, if any. */
  datatype Ticked<C> = Ticked(anim: Signal<C>, scene: Scene, fire: Option<C>)

  /**
   * `update_signal_animation`: count the tick; on the 75th stop, restore the
   * teeth and hand back the callback to run (the animator keeps it);
   * otherwise draw the frame at `step / 75`.
   */
  function Tick<C>(a: Signal<C>, sc: Scene, sqrt: real -> real): (r: Ticked<C>)
    requires a.animating
    ensures r.anim.step == a.step + 1 && r.anim.teeth == a.teeth && r.anim.callback == a.callback
    ensures r.anim.animating <==> a.step + 1 < Duration
    ensures !r.anim.animating ==> r.scene == Restore(sc, a.teeth) && r.fire == a.callback
    ensures r.anim.animating ==> r.fire.None?
    ensures LookAlike(sc, r.scene, a.teeth)
  {
    var step := a.step + 1;
    if step >= Duration then
      RestoreLooksAlike(sc, a.teeth);
      Ticked(a.(step := step, animating := false), Restore(sc, a.teeth), a.callback)
    else
      FrameLooksAlike(sc, a.teeth, step as real / Duration as real, sqrt);
      Ticked(a.(step := step), Frame(sc, a.teeth, step as real / Duration as real, sqrt), None)
  }

  /** `stop_animation`: stop at once and restore the teeth. */
  function Stop<C>(a: Signal<C>, sc: Scene): (r: (Signal<C>, Scene))
    ensures !r.0.animating && r.0.teeth == a.teeth && r.1 == Restore(sc, a.teeth)
  {
    (a.(animating := false), Restore(sc, a.teeth))
  }

  /** `k` timer ticks, or fewer if the animation ends first (its timer then stops). */
  function Run<C>(a: Signal<C>, sc: Scene, k: nat, sqrt: real -> real): (r: (Signal<C>, Scene))
    decreases k
  {
    if k == 0 || !a.animating then (a, sc)
    else
      var t := Tick(a, sc, sqrt);
      Run(t.anim, t.scene, k - 1, sqrt)
  }

  /**
   * A started flash is busy for exactly 75 ticks: after `k` ticks it has
   * counted `min(k, 75)` and runs on exactly while `k < 75`; its scene
   * differs from the start's only in the teeth's look, and once it has
   * ended the teeth show the recorded properties again.
   */
  lemma {:induction false} RunCounts<C>(a: Signal<C>, sc: Scene, k: nat, sqrt: real -> real)
    requires a.animating && 0 <= a.step < Duration
    ensures var r := Run(a, sc, k, sqrt);
      && r.0.step == (if a.step + k < Duration then a.step + k else Duration)
      && (r.0.animating <==> a.step + k < Duration)
      && r.0.teeth == a.teeth && r.0.callback == a.callback
      && LookAlike(sc, r.1, a.teeth)
      && (!r.0.animating ==> r.1 == Restore(sc, a.teeth))
    decreases k
  {
    if k == 0 {
      assert LookAlike(sc, sc, a.teeth);
    } else {
      var t := Tick(a, sc, sqrt);
      if t.anim.animating {
        RunCounts(t.anim, t.scene, k - 1, sqrt);
        var r := Run(t.anim, t.scene, k - 1, sqrt);
        LookAlikeTrans(sc, t.scene, r.1, a.teeth);
        if !r.0.animating {
          RestoreForgetsLook(sc, t.scene, a.teeth);
        }
      } else {
        assert Run(a, sc, k, sqrt) == Run(t.anim, t.scene, k - 1, sqrt);
        assert Run(t.anim, t.scene, k - 1, sqrt) == (t.anim, t.scene);
      }
    }
  }

  /** The 75th tick after a start is the one that hands back the callback. */
  lemma CallbackOnLastTick<C>(a: Signal<C>, sc: Scene, sqrt: real -> real)
    requires a.animating && a.step == Duration - 1
    ensures var t := Tick(a, sc, sqrt);
      !t.anim.animating && t.fire == a.callback && t.scene == Restore(sc, a.teeth)
  {
  }
}
