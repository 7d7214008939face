/**
 * The dental viewer's animation panel: the three buttons that start the
 * tooth flash, the automatic open-close jaw cycle and the combined
 * flash-open-flash-close sequence, the callbacks that chain the steps, the
 * two animators' timer ticks, the jaw reset button and the angle slider.
 * While anything animates the three buttons are disabled; the last
 * callback of a chain enables them again.
 */
module DentalSequence {
  import opened Wrappers
  import opened Text
  import opened Geometry
  import opened Scene
  import DentalSignal
  import Jaw

  /** The completion closures the panel hands to the animators (dental_system.py:1465-1557). */
  datatype Cb =
    | SignalDone       // on_signal_complete of the flash button
    | CycleOpened      // on_jaw_open_complete of the jaw cycle
    | CycleClosed      // on_jaw_close_complete of the jaw cycle
    | SeqSignal1Done   // on_signal_1_complete of the combined sequence
    | SeqOpened        // on_jaw_open_complete of the combined sequence
    | SeqSignal2Done   // on_signal_2_complete of the combined sequence
    | SeqClosed        // on_jaw_close_complete of the combined sequence

  /** The panel's state: the scene, the two animators, whether the three buttons are enabled, and `jaw_is_open`. */
  datatype World = World(scene: Scene, signal: DentalSignal.Signal<Cb>, jaw: Jaw.Jaw<Cb>,
                         buttons: bool, jawOpen: bool)

  /** A freshly loaded model: both animators idle, buttons enabled, jaw closed. */
  function Loaded(sc: Scene): World {
    World(sc, DentalSignal.Init(), Jaw.Init(), true, false)
  }

  predicate Busy(w: World) { w.signal.animating || w.jaw.animating }

  /** The scene has at least one segment whose name says `upper` or `lower`. */
  predicate HasJaw(sc: Scene) {
    Jaw.OfSide(sc.order, Jaw.UpperJaw) != [] || Jaw.OfSide(sc.order, Jaw.LowerJaw) != []
  }

  /** The scene has a visible segment whose name says `tooth`. */
  ghost predicate HasVisibleTooth(sc: Scene) {
    exists n :: n in sc.segs && DentalSignal.IsTooth(n, sc.segs[n])
  }

  /** The jaw controller finds parts exactly when the scene has a jaw. */
  lemma IdentifyFindsJaw<C>(j: Jaw.Jaw<C>, sc: Scene)
    ensures Jaw.HasParts(Jaw.Identify(j, sc)) <==> HasJaw(sc)
  {
  }

  /** The flash finds teeth exactly when a visible tooth exists. */
  lemma PrepareFindsTeeth(sc: Scene)
    requires WellFormed(sc)
    ensures DentalSignal.Prepare(sc) != [] <==> HasVisibleTooth(sc)
  {
    var ts := DentalSignal.Prepare(sc);
    if ts != [] {
      assert DentalSignal.Names(ts)[0] in DentalSignal.Names(ts);
    }
    if HasVisibleTooth(sc) {
      var n :| n in sc.segs && DentalSignal.IsTooth(n, sc.segs[n]);
      assert n in DentalSignal.Names(ts);
    }
  }

  /** Two scenes with the same order and keys are both well formed or neither, and agree on having a jaw. */
  lemma SameShape(a: Scene, b: Scene)
    requires a.order == b.order && a.segs.Keys == b.segs.Keys
    ensures WellFormed(a) <==> WellFormed(b)
    ensures HasJaw(a) <==> HasJaw(b)
  {
  }

  // ---- the completion closures ----

  /** What each closure does when an animator calls it. */
  function RunCallback(w: World, cb: Cb): (r: World)
    ensures cb in {SignalDone, CycleClosed, SeqClosed} ==> r == w.(buttons := true, jawOpen := if cb == SignalDone then w.jawOpen else false)
    ensures cb == CycleOpened ==> r == w.(jawOpen := true, jaw := Jaw.Start(w.jaw, w.scene, false, Some(CycleClosed)))
    ensures cb == SeqSignal1Done ==> r == w.(jaw := Jaw.Start(w.jaw, w.scene, true, Some(SeqOpened)))
    ensures cb == SeqSignal2Done ==> r == w.(jaw := Jaw.Start(w.jaw, w.scene, false, Some(SeqClosed)))
    ensures cb == SeqOpened ==>
      var s := DentalSignal.Start(w.signal, w.scene, Some(SeqSignal2Done));
      r == w.(jawOpen := true, signal := s.0, scene := s.1)
  {
    match cb
    case SignalDone => w.(buttons := true)
    case CycleClosed => w.(jawOpen := false, buttons := true)
    case SeqClosed => w.(jawOpen := false, buttons := true)
    case CycleOpened => w.(jawOpen := true, jaw := Jaw.Start(w.jaw, w.scene, false, Some(CycleClosed)))
    case SeqSignal1Done => w.(jaw := Jaw.Start(w.jaw, w.scene, true, Some(SeqOpened)))
    case SeqOpened =>
      var s := DentalSignal.Start(w.signal, w.scene, Some(SeqSignal2Done));
      w.(jawOpen := true, signal := s.0, scene := s.1)
    case SeqSignal2Done => w.(jaw := Jaw.Start(w.jaw, w.scene, false, Some(SeqClosed)))
  }

  function Fire(w: World, fire: Option<Cb>): World {
    match fire
    case None => w
    case Some(cb) => RunCallback(w, cb)
  }

  // ---- the three buttons (dental_system.py:1446-1573) ----

  /** `trigger_neural_signal`: refused while busy; prepares the teeth; with none, stops there. */
  function PressSignal(w: World): (r: World)
    requires WellFormed(w.scene)
    ensures Busy(w) ==> r == w
    ensures !Busy(w) && !HasVisibleTooth(w.scene) ==> r == w.(signal := DentalSignal.Prepared(w.signal, w.scene))
    ensures !Busy(w) && HasVisibleTooth(w.scene) ==>
      var s := DentalSignal.Start(DentalSignal.Prepared(w.signal, w.scene), w.scene, Some(SignalDone));
      r == w.(signal := s.0, scene := s.1, buttons := false)
  {
    PrepareFindsTeeth(w.scene);
    if Busy(w) then w
    else
      var p := DentalSignal.Prepared(w.signal, w.scene);
      if p.teeth == [] then w.(signal := p)
      else
        var s := DentalSignal.Start(p, w.scene, Some(SignalDone));
        w.(signal := s.0, scene := s.1, buttons := false)
  }

  /** `trigger_automatic_jaw_cycle`: refused while busy or without jaw parts; otherwise start opening. */
  function PressJawCycle(w: World): (r: World)
    ensures Busy(w) ==> r == w
    ensures !Busy(w) && !HasJaw(w.scene) ==> r == w.(jaw := Jaw.Identify(w.jaw, w.scene))
    ensures !Busy(w) && HasJaw(w.scene) ==>
      r == w.(buttons := false, jaw := Jaw.Start(Jaw.Identify(w.jaw, w.scene), w.scene, true, Some(CycleOpened)))
  {
    if Busy(w) then w
    else
      var j := Jaw.Identify(w.jaw, w.scene);
      if !Jaw.HasParts(j) then w.(jaw := j)
      else w.(buttons := false, jaw := Jaw.Start(j, w.scene, true, Some(CycleOpened)))
  }

  /**
   * `trigger_combined_animation`: refused while busy, without jaw parts or
   * without visible teeth; otherwise start the first flash.
   */
  function PressCombined(w: World): (r: World)
    requires WellFormed(w.scene)
    ensures Busy(w) ==> r == w
    ensures !Busy(w) && !HasJaw(w.scene) ==> r == w.(jaw := Jaw.Identify(w.jaw, w.scene))
    ensures !Busy(w) && HasJaw(w.scene) && !HasVisibleTooth(w.scene) ==>
      r == w.(jaw := Jaw.Identify(w.jaw, w.scene), signal := DentalSignal.Prepared(w.signal, w.scene))
    ensures !Busy(w) && HasJaw(w.scene) && HasVisibleTooth(w.scene) ==>
      var s := DentalSignal.Start(DentalSignal.Prepared(w.signal, w.scene), w.scene, Some(SeqSignal1Done));
      r == w.(jaw := Jaw.Identify(w.jaw, w.scene), signal := s.0, scene := s.1, buttons := false)
  {
    PrepareFindsTeeth(w.scene);
    if Busy(w) then w
    else
      var j := Jaw.Identify(w.jaw, w.scene);
      if !Jaw.HasParts(j) then w.(jaw := j)
      else
        var p := DentalSignal.Prepared(w.signal, w.scene);
        if p.teeth == [] then w.(jaw := j, signal := p)
        else
          var s := DentalSignal.Start(p, w.scene, Some(SeqSignal1Done));
          w.(jaw := j, signal := s.0, scene := s.1, buttons := false)
  }

  // ---- timer ticks ----

  /** The flash timer fires: draw or finish, then run the callback the animator hands back. */
  function SignalTick(w: World, sqrt: real -> real): World
    requires w.signal.animating
  {
    var t := DentalSignal.Tick(w.signal, w.scene, sqrt);
    Fire(w.(signal := t.anim, scene := t.scene), t.fire)
  }

  /**
   * The jaw timer fires, with the final frame drawn before the callback
   * runs: the frame shows the movement that just ended, and a movement the
   * callback starts draws its own first frame on the next tick.
   */
  function JawTick(w: World, tr: Trig): World
    requires w.jaw.animating
  {
    var c := Jaw.Count(w.jaw);
    AfterCount(w, c, Jaw.FrameOf(w.scene, c.jaw, tr, c.progress))
  }

  /** The counted controller and the drawn scene put in place, then the callback run. */
  function AfterCount(w: World, c: Jaw.Counted<Cb>, sc: Scene): World {
    Fire(w.(jaw := c.jaw, scene := sc), c.fire)
  }

  /**
   * `update_jaw_animation` as written: the callback runs first and the
   * frame is then drawn from the controller as the callback left it, so a
   * callback that starts the closing movement has the last opening frame
   * drawn with the closing direction.
   */
  function JawTickAsWritten(w: World, tr: Trig): World
    requires w.jaw.animating
  {
    var c := Jaw.Count(w.jaw);
    var after := Fire(w.(jaw := c.jaw), c.fire);
    after.(scene := Jaw.FrameOf(after.scene, after.jaw, tr, c.progress))
  }

  // ---- the jaw reset button and the angle slider (dental_system.py:1576-1591) ----

  /** `reset_jaw_position` of the window as written: stop and reset the jaw; the buttons stay as they are. */
  function ResetJawAsWritten(w: World): (r: World)
    requires WellFormed(w.scene)
    ensures !r.jaw.animating && !r.jawOpen && r.buttons == w.buttons && r.signal == w.signal
  {
    var x := Jaw.Reset(w.jaw.(animating := false), w.scene);
    w.(jaw := x.0, scene := x.1, jawOpen := false)
  }

  /**
   * The reset with the buttons enabled again when it leaves nothing
   * running: a jaw movement it stops would otherwise never run the callback
   * that enables them.
   */
  function ResetJaw(w: World): (r: World)
    requires WellFormed(w.scene)
    ensures r == ResetJawAsWritten(w).(buttons := w.buttons || !w.signal.animating)
  {
    var x := ResetJawAsWritten(w);
    x.(buttons := x.buttons || !x.signal.animating)
  }

  /** `update_jaw_angle`: the slider sets the full opening angle used from the next frame on. */
  function SetJawAngle(w: World, degrees: int): (r: World)
    ensures r.jaw == w.jaw.(angle := degrees as real) && r.scene == w.scene && r.signal == w.signal
  {
    w.(jaw := w.jaw.(angle := degrees as real))
  }

  // ---- the panel as a whole ----

  /** Everything that can happen to the panel. */
  datatype Event = PressSignalButton | PressJawCycleButton | PressCombinedButton
                 | SignalTimer | JawTimer | PressResetJaw | MoveAngleSlider(degrees: int)

  /** A disabled button delivers no click; a timer fires only while its animator runs. */
  predicate Enabled(w: World, e: Event) {
    match e
    case PressSignalButton => w.buttons
    case PressJawCycleButton => w.buttons
    case PressCombinedButton => w.buttons
    case SignalTimer => w.signal.animating
    case JawTimer => w.jaw.animating
    case _ => true
  }

  /**
   * One event as the panel's code handles it: the jaw callback runs before
   * the movement's last frame is drawn, and the jaw reset leaves the
   * buttons as they are.
   */
  function Step(w: World, e: Event, tr: Trig, sqrt: real -> real): World
    requires WellFormed(w.scene) && Enabled(w, e)
  {
    match e
    case PressSignalButton => PressSignal(w)
    case PressJawCycleButton => PressJawCycle(w)
    case PressCombinedButton => PressCombined(w)
    case SignalTimer => SignalTick(w, sqrt)
    case JawTimer => JawTickAsWritten(w, tr)
    case PressResetJaw => ResetJawAsWritten(w)
    case MoveAngleSlider(d) => SetJawAngle(w, d)
  }

  /**
   * One event with both corrections: the last jaw frame drawn before the
   * callback runs, and a reset that enables the buttons when it leaves
   * nothing running.
   */
  function StepCorrected(w: World, e: Event, tr: Trig, sqrt: real -> real): World
    requires WellFormed(w.scene) && Enabled(w, e)
  {
    match e
    case PressSignalButton => PressSignal(w)
    case PressJawCycleButton => PressJawCycle(w)
    case PressCombinedButton => PressCombined(w)
    case SignalTimer => SignalTick(w, sqrt)
    case JawTimer => JawTick(w, tr)
    case PressResetJaw => ResetJaw(w)
    case MoveAngleSlider(d) => SetJawAngle(w, d)
  }

  /** Where the panel is in its chains, read off the running animator and its pending callback. */
  datatype Stage = Idle | Flashing | CycleOpening | CycleClosing | Flash1 | Opening | Flash2 | Closing

  function StageOf(w: World): Stage {
    if w.signal.animating then
      if w.signal.callback == Some(SeqSignal1Done) then Flash1
      else if w.signal.callback == Some(SeqSignal2Done) then Flash2
      else Flashing
    else if w.jaw.animating then
      if w.jaw.callback == Some(CycleOpened) then CycleOpening
      else if w.jaw.callback == Some(CycleClosed) then CycleClosing
      else if w.jaw.callback == Some(SeqOpened) then Opening
      else Closing
    else Idle
  }

  /** The stage each one hands over to. */
  function Next(s: Stage): Stage {
    match s
    case Idle => Idle
    case Flashing => Idle
    case CycleOpening => CycleClosing
    case CycleClosing => Idle
    case Flash1 => Opening
    case Opening => Flash2
    case Flash2 => Closing
    case Closing => Idle
  }

  /**
   * What holds whichever reset is used: at most one animator runs; each
   * running animator holds one of its own closures; and a chain that still
   * has a jaw movement ahead has jaw parts to move.
   */
  ghost predicate Sound(w: World) {
    && WellFormed(w.scene)
    && !(w.signal.animating && w.jaw.animating)
    && (w.signal.animating ==> w.signal.callback in {Some(SignalDone), Some(SeqSignal1Done), Some(SeqSignal2Done)})
    && (w.jaw.animating ==> w.jaw.callback in {Some(CycleOpened), Some(CycleClosed), Some(SeqOpened), Some(SeqClosed)})
    && (StageOf(w) !in {Idle, Flashing} ==> HasJaw(w.scene))
  }

  /** The corrected panel's invariant: the buttons are enabled exactly when nothing animates. */
  ghost predicate Inv(w: World) {
    Sound(w) && (w.buttons <==> !Busy(w))
  }

  /** The panel's invariant as written: the buttons are enabled only when nothing animates. */
  ghost predicate InvAsWritten(w: World) {
    Sound(w) && (w.buttons ==> !Busy(w))
  }

  lemma LoadedInv(sc: Scene)
    requires WellFormed(sc)
    ensures Inv(Loaded(sc)) && StageOf(Loaded(sc)) == Idle
  {
  }

  lemma PressSignalInv(w: World)
    requires Inv(w)
    ensures Inv(PressSignal(w))
    ensures !Busy(w) && HasVisibleTooth(w.scene) ==> StageOf(PressSignal(w)) == Flashing
    ensures !(!Busy(w) && HasVisibleTooth(w.scene)) ==> StageOf(PressSignal(w)) == StageOf(w)
  {
    if !Busy(w) && HasVisibleTooth(w.scene) {
      var p := DentalSignal.Prepared(w.signal, w.scene);
      DentalSignal.RestoreLooksAlike(w.scene, p.teeth);
      SameShape(w.scene, DentalSignal.Restore(w.scene, p.teeth));
    }
  }

  lemma PressJawCycleInv(w: World)
    requires Inv(w)
    ensures Inv(PressJawCycle(w))
    ensures !Busy(w) && HasJaw(w.scene) ==> StageOf(PressJawCycle(w)) == CycleOpening
    ensures !(!Busy(w) && HasJaw(w.scene)) ==> StageOf(PressJawCycle(w)) == StageOf(w)
  {
    IdentifyFindsJaw(w.jaw, w.scene);
    IdentifyFindsJaw(Jaw.Identify(w.jaw, w.scene), w.scene);
  }

  lemma PressCombinedInv(w: World)
    requires Inv(w)
    ensures Inv(PressCombined(w))
    ensures !Busy(w) && HasJaw(w.scene) && HasVisibleTooth(w.scene) ==> StageOf(PressCombined(w)) == Flash1
    ensures !(!Busy(w) && HasJaw(w.scene) && HasVisibleTooth(w.scene)) ==> StageOf(PressCombined(w)) == StageOf(w)
  {
    if !Busy(w) && HasJaw(w.scene) && HasVisibleTooth(w.scene) {
      var p := DentalSignal.Prepared(w.signal, w.scene);
      DentalSignal.RestoreLooksAlike(w.scene, p.teeth);
      SameShape(w.scene, DentalSignal.Restore(w.scene, p.teeth));
    }
  }

  /** Running a closure of the stage that just ended keeps the invariant and enters the next stage. */
  lemma CallbackInv(w: World, cb: Cb, s: Stage)
    requires WellFormed(w.scene) && !Busy(w) && !w.buttons
    requires s in {Flashing, Flash1, Flash2} ==> Some(cb) in {Some(SignalDone), Some(SeqSignal1Done), Some(SeqSignal2Done)}
    requires s in {CycleOpening, CycleClosing, Opening, Closing} ==>
      Some(cb) in {Some(CycleOpened), Some(CycleClosed), Some(SeqOpened), Some(SeqClosed)}
    requires s == match cb
      case SignalDone => Flashing
      case SeqSignal1Done => Flash1
      case SeqSignal2Done => Flash2
      case CycleOpened => CycleOpening
      case CycleClosed => CycleClosing
      case SeqOpened => Opening
      case SeqClosed => Closing
    requires s !in {Idle, Flashing} ==> HasJaw(w.scene)
    ensures Inv(RunCallback(w, cb)) && StageOf(RunCallback(w, cb)) == Next(s)
  {
    IdentifyFindsJaw(w.jaw, w.scene);
    if cb == SeqOpened {
      DentalSignal.RestoreLooksAlike(w.scene, w.signal.teeth);
      SameShape(w.scene, DentalSignal.Restore(w.scene, w.signal.teeth));
    }
  }

  /** A flash tick keeps the invariant; the stage moves on exactly on the flash's last tick. */
  lemma SignalTickInv(w: World, sqrt: real -> real)
    requires Inv(w) && w.signal.animating
    ensures Inv(SignalTick(w, sqrt))
    ensures StageOf(SignalTick(w, sqrt)) ==
      if w.signal.step + 1 < DentalSignal.Duration then StageOf(w) else Next(StageOf(w))
  {
    var t := DentalSignal.Tick(w.signal, w.scene, sqrt);
    SameShape(w.scene, t.scene);
    var v := w.(signal := t.anim, scene := t.scene);
    if !t.anim.animating {
      CallbackInv(v, t.fire.value, StageOf(w));
    }
  }

  /** Putting a counted controller and a same-shaped scene in place keeps the invariant. */
  lemma AfterCountInv(w: World, c: Jaw.Counted<Cb>, sc: Scene)
    requires Inv(w) && w.jaw.animating
    requires c.jaw.animating ==> c.fire.None? && c.jaw.callback == w.jaw.callback
    requires !c.jaw.animating ==> c.fire == w.jaw.callback
    requires sc.order == w.scene.order && sc.segs.Keys == w.scene.segs.Keys
    ensures Inv(AfterCount(w, c, sc))
    ensures StageOf(AfterCount(w, c, sc)) == if c.jaw.animating then StageOf(w) else Next(StageOf(w))
  {
    SameShape(w.scene, sc);
    var v := w.(jaw := c.jaw, scene := sc);
    if !c.jaw.animating {
      CallbackInv(v, c.fire.value, StageOf(w));
    }
  }

  /** A jaw tick keeps the invariant; the stage moves on exactly on the movement's last tick. */
  lemma JawTickInv(w: World, tr: Trig)
    requires Inv(w) && w.jaw.animating
    ensures Inv(JawTick(w, tr))
    ensures StageOf(JawTick(w, tr)) == if w.jaw.step + 1 < Jaw.Ticks then StageOf(w) else Next(StageOf(w))
  {
    var c := Jaw.Count(w.jaw);
    var sc := Jaw.FrameOf(w.scene, c.jaw, tr, c.progress);
    assert sc.order == w.scene.order && sc.segs.Keys == w.scene.segs.Keys;
    AfterCountInv(w, c, sc);
    assert JawTick(w, tr) == AfterCount(w, c, sc);
  }

  lemma ResetJawInv(w: World)
    requires Inv(w)
    ensures Inv(ResetJaw(w))
    ensures !w.jaw.animating ==> StageOf(ResetJaw(w)) == StageOf(w)
    ensures w.jaw.animating ==> StageOf(ResetJaw(w)) == Idle
  {
    var x := Jaw.Reset(w.jaw.(animating := false), w.scene);
    SameShape(w.scene, x.1);
  }

  /** The jaw tick as written keeps the invariant and moves the stage exactly as the corrected tick does. */
  lemma JawTickAsWrittenInv(w: World, tr: Trig)
    requires Inv(w) && w.jaw.animating
    ensures Inv(JawTickAsWritten(w, tr))
    ensures StageOf(JawTickAsWritten(w, tr)) == if w.jaw.step + 1 < Jaw.Ticks then StageOf(w) else Next(StageOf(w))
  {
    var c := Jaw.Count(w.jaw);
    AfterCountInv(w, c, w.scene);
    var after := AfterCount(w, c, w.scene);
    assert after == Fire(w.(jaw := c.jaw), c.fire);
    var sc := Jaw.FrameOf(after.scene, after.jaw, tr, c.progress);
    assert sc.order == after.scene.order && sc.segs.Keys == after.scene.segs.Keys;
    SameShape(after.scene, sc);
  }

  /** The reset as written keeps the weaker invariant; during a jaw movement it leaves the panel idle. */
  lemma ResetJawAsWrittenInv(w: World)
    requires InvAsWritten(w)
    ensures InvAsWritten(ResetJawAsWritten(w))
    ensures !w.jaw.animating ==> StageOf(ResetJawAsWritten(w)) == StageOf(w)
    ensures w.jaw.animating ==> StageOf(ResetJawAsWritten(w)) == Idle
    ensures Inv(w) && !w.jaw.animating ==> Inv(ResetJawAsWritten(w))
  {
    var x := Jaw.Reset(w.jaw.(animating := false), w.scene);
    SameShape(w.scene, x.1);
  }

  /**
   * The panel as written: whatever happens, the buttons are enabled only
   * while nothing animates, and a chain only moves forward through its
   * stages. The stronger invariant, buttons enabled exactly when nothing
   * animates, survives every event except a jaw reset during a jaw
   * movement.
   */
  lemma StepInv(w: World, e: Event, tr: Trig, sqrt: real -> real)
    requires InvAsWritten(w) && Enabled(w, e)
    ensures InvAsWritten(Step(w, e, tr, sqrt))
    ensures e in {SignalTimer, JawTimer} ==>
      StageOf(Step(w, e, tr, sqrt)) in {StageOf(w), Next(StageOf(w))}
    ensures Inv(w) && !(e == PressResetJaw && w.jaw.animating) ==> Inv(Step(w, e, tr, sqrt))
  {
    match e
    case PressSignalButton => PressSignalInv(w);
    case PressJawCycleButton => PressJawCycleInv(w);
    case PressCombinedButton => PressCombinedInv(w);
    case SignalTimer => SignalTickInv(w, sqrt);
    case JawTimer => JawTickAsWrittenInv(w, tr);
    case PressResetJaw => ResetJawAsWrittenInv(w);
    case MoveAngleSlider(d) =>
  }

  /**
   * As written, once the buttons are disabled with nothing animating, no
   * event of the panel gets out: no button can be clicked, no timer runs,
   * and neither the reset nor the slider enables the buttons.
   */
  lemma LockedStaysLocked(w: World, e: Event, tr: Trig, sqrt: real -> real)
    requires WellFormed(w.scene) && !w.buttons && !Busy(w) && Enabled(w, e)
    ensures var r := Step(w, e, tr, sqrt); !r.buttons && !Busy(r)
  {
  }

  /**
   * The corrected panel never gets stuck: from a freshly loaded model,
   * whatever happens, the buttons are enabled exactly when nothing
   * animates, and a chain only moves forward through its stages.
   */
  lemma StepCorrectedInv(w: World, e: Event, tr: Trig, sqrt: real -> real)
    requires Inv(w) && Enabled(w, e)
    ensures Inv(StepCorrected(w, e, tr, sqrt))
    ensures e in {SignalTimer, JawTimer} ==>
      StageOf(StepCorrected(w, e, tr, sqrt)) in {StageOf(w), Next(StageOf(w))}
  {
    match e
    case PressSignalButton => PressSignalInv(w);
    case PressJawCycleButton => PressJawCycleInv(w);
    case PressCombinedButton => PressCombinedInv(w);
    case SignalTimer => SignalTickInv(w, sqrt);
    case JawTimer => JawTickInv(w, tr);
    case PressResetJaw => ResetJawInv(w);
    case MoveAngleSlider(d) =>
  }

  /** With the reset as written, pressing it during a jaw movement leaves the panel idle with its buttons disabled. */
  lemma ResetAsWrittenLocksButtons(w: World)
    requires Inv(w) && w.jaw.animating
    ensures var r := ResetJawAsWritten(w); !Busy(r) && !r.buttons
  {
  }

  // ---- the last frame of a jaw movement ----

  /**
   * As written, the last opening frame of the automatic cycle draws the
   * lower jaw closed: the callback has already switched the controller to
   * closing, and a closing movement at full progress is at angle 0.
   */
  lemma LastOpeningFrameAsWritten(w: World, tr: Trig, n: string)
    requires WellFormed(w.scene) && TrigSane(tr)
    requires w.jaw.animating && w.jaw.callback == Some(CycleOpened) && w.jaw.step + 1 == Jaw.Ticks
    requires n in w.scene.segs && Jaw.SideOf(n) == Jaw.LowerJaw
    ensures var r := JawTickAsWritten(w, tr);
      n in r.scene.segs && r.scene.segs[n].transform == Some(Jaw.LowerPose(r.jaw.pivot, tr, 0.0))
  {
    var j := ClosingAfterOpened(w, tr, n);
    assert n in j.lower;
    Jaw.FrameAngleEnds(tr, j.angle);
    Jaw.FrameOfLower(w.scene, j, tr, 1.0, n);
  }

  /** As written, the last opening tick draws its frame from the closing controller the callback started. */
  lemma ClosingAfterOpened(w: World, tr: Trig, n: string) returns (j: Jaw.Jaw<Cb>)
    requires WellFormed(w.scene) && n in w.scene.segs && Jaw.SideOf(n) == Jaw.LowerJaw
    requires w.jaw.animating && w.jaw.callback == Some(CycleOpened) && w.jaw.step + 1 == Jaw.Ticks
    ensures j == Jaw.Identify(Jaw.Count(w.jaw).jaw, w.scene).(step := 0, opening := false, animating := true,
                                                              callback := Some(CycleClosed))
    ensures j.lower == Jaw.OfSide(w.scene.order, Jaw.LowerJaw)
    ensures JawTickAsWritten(w, tr).jaw == j
    ensures JawTickAsWritten(w, tr).scene == Jaw.FrameOf(w.scene, j, tr, 1.0)
  {
    var c := Jaw.Count(w.jaw);
    var i := Jaw.Identify(c.jaw, w.scene);
    j := i.(step := 0, opening := false, animating := true, callback := Some(CycleClosed));
    assert c.fire == Some(CycleOpened) && !c.jaw.animating && c.progress == 1.0;
    assert n in i.lower;
    var after := RunCallback(w.(jaw := c.jaw), CycleOpened);
    assert after.scene == w.scene;
    assert Fire(w.(jaw := c.jaw), c.fire) == after;
  }

  /**
   * With the frame drawn first, the last frame of every movement shows
   * where the movement ends: the full angle after opening, 0 after closing.
   */
  lemma LastFrameShowsEnd(w: World, tr: Trig, n: string)
    requires TrigSane(tr)
    requires w.jaw.animating && w.jaw.step + 1 == Jaw.Ticks
    requires n in w.scene.segs && n in w.jaw.lower
    ensures var r := JawTick(w, tr);
      r.scene.segs[n].transform ==
        Some(Jaw.LowerPose(w.jaw.pivot, tr, if w.jaw.opening then w.jaw.angle else 0.0))
  {
    var c := Jaw.Count(w.jaw);
    var sc := Jaw.FrameOf(w.scene, c.jaw, tr, c.progress);
    Jaw.FrameAngleEnds(tr, w.jaw.angle);
    Jaw.FrameOfLower(w.scene, c.jaw, tr, c.progress, n);
    AfterCountKeepsTransforms(w, c, sc, n);
    assert JawTick(w, tr) == AfterCount(w, c, sc);
  }

  /** No closure touches a transform. */
  lemma AfterCountKeepsTransforms(w: World, c: Jaw.Counted<Cb>, sc: Scene, n: string)
    requires n in sc.segs
    ensures n in AfterCount(w, c, sc).scene.segs
    ensures AfterCount(w, c, sc).scene.segs[n].transform == sc.segs[n].transform
  {
    var w1 := w.(jaw := c.jaw, scene := sc);
    match c.fire
    case None =>
    case Some(cb) =>
      if cb == SeqOpened {
        DentalSignal.RestoreLooksAlike(sc, w.signal.teeth);
        assert RunCallback(w1, cb).scene == DentalSignal.Start(w.signal, sc, Some(SeqSignal2Done)).1;
      } else {
        assert RunCallback(w1, cb).scene == sc;
      }
  }
}
