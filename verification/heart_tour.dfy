/**
 * The heart viewer's type-opacity sliders and its blood-flow tour: a type's
 * opacity is written to every matching segment, mirrored on the slider (whose
 * own change signal calls back into the same handler), and re-applied to
 * focus mode; the tour makes the vessels translucent, flies the fixed key
 * path through a clip tunnel and restores the vessels when it ends.
 */
module HeartTour {
  import opened Wrappers
  import opened Text
  import opened Geometry
  import opened Scene
  import Heart
  import Focus
  import Flight

  // ---- the four opacity sliders (cardiovascular_system.py:1177-1206) ----

  /** Slider positions, 0..100. */
  datatype Sliders = Sliders(ventricle: int, atrium: int, artery: int, vein: int)

  /** Every slider starts fully opaque except the vessels, which start at 30. */
  const DefaultSliders := Sliders(100, 100, 30, 30)

  /** Python's `int()` on a float: truncation toward zero. */
  function Trunc(x: real): int {
    if x >= 0.0 then x.Floor else -((-x).Floor)
  }

  /** `Trunc` drops the fraction and keeps the sign. */
  lemma TruncBounds(x: real)
    ensures x >= 0.0 ==> Trunc(x) as real <= x < Trunc(x) as real + 1.0
    ensures x < 0.0 ==> Trunc(x) as real - 1.0 < x <= Trunc(x) as real
  {
  }

  /** A fraction scaled to a percentage. */
  function Percent(f: real): real { f * 100.0 }

  /** A slider position as the fraction the slider's signal passes on. */
  function Fraction(v: int): real { v as real / 100.0 }

  /** `QSlider.setValue` keeps the value inside the slider's range 0..100. */
  function QtClamp(v: int): (r: int)
    ensures 0 <= r <= 100
    ensures 0 <= v <= 100 ==> r == v
    ensures v < 0 ==> r == 0
    ensures v > 100 ==> r == 100
  {
    if v < 0 then 0 else if v > 100 then 100 else v
  }

  /** The slider position `int(opacity * 100)` lands on. */
  function SliderPosition(opacity: real): (r: int)
    ensures 0 <= r <= 100
  {
    QtClamp(Trunc(Percent(opacity)))
  }

  /** The four types with an opacity slider, the only ones the handler is called with. */
  datatype Kind = Ventricle | Atrium | Artery | Vein

  /** The type name the handler is called with. */
  function TypeName(k: Kind): string {
    match k
    case Ventricle => "Ventricle"
    case Atrium => "Atrium"
    case Artery => "Artery"
    case Vein => "Vein"
  }

  /** The lower-case keys the handler searches names for: the type itself, plus aorta or cava for vessels. */
  function KindKeys(k: Kind): seq<string> {
    match k
    case Ventricle => ["ventricle"]
    case Atrium => ["atrium"]
    case Artery => ["artery", "aorta"]
    case Vein => ["vein", "cava"]
  }

  /** The keys are the ones the handler builds from the type name. */
  lemma KindKeysAgree(k: Kind)
    ensures KindKeys(k) == Heart.SearchKeys(TypeName(k))
  {
    match k
    case Ventricle => Heart.CapitalLower("Ventricle", "ventricle");
    case Atrium => Heart.CapitalLower("Atrium", "atrium");
    case Artery => Heart.CapitalLower("Artery", "artery");
    case Vein => Heart.CapitalLower("Vein", "vein");
  }

  /** A segment of the kind: its lower-cased name mentions one of the kind's search keys. */
  predicate OfKind(n: string, k: Kind) {
    exists j | 0 <= j < |KindKeys(k)| :: Contains(Lower(n), KindKeys(k)[j])
  }

  /** `OfKind` is the handler's own name test for the kind's type name. */
  lemma OfKindMatches(k: Kind)
    ensures forall n :: OfKind(n, k) <==> Heart.MatchesType(n, TypeName(k))
  {
    KindKeysAgree(k);
  }

  /** The slider that mirrors a kind. */
  function SliderOf(sl: Sliders, k: Kind): int {
    match k
    case Ventricle => sl.ventricle
    case Atrium => sl.atrium
    case Artery => sl.artery
    case Vein => sl.vein
  }

  /** Move the slider of a kind. */
  function WithSlider(sl: Sliders, k: Kind, v: int): (r: Sliders)
    ensures SliderOf(r, k) == v
    ensures forall j :: j != k ==> SliderOf(r, j) == SliderOf(sl, j)
  {
    match k
    case Ventricle => sl.(ventricle := v)
    case Atrium => sl.(atrium := v)
    case Artery => sl.(artery := v)
    case Vein => sl.(vein := v)
  }

  /** What the opacity handler sees: the segments, the sliders, focus mode and the tree's current item. */
  datatype Ui = Ui(scene: Scene, sliders: Sliders, nav: Focus.Navigator, current: Option<string>)

  // ---- set_type_opacity (cardiovascular_system.py:1908-1939) ----

  /**
   * The focus re-application as the heart viewer writes it: while focus mode
   * is on, take a new snapshot of the live properties (which are the dimmed
   * ones) and focus the current tree item again.
   */
  function RefocusAsWritten(ui: Ui): (r: Ui)
    ensures !ui.nav.active ==> r == ui
    ensures ui.nav.active ==> r.nav.active && r.nav.snapshot == Focus.Activate(ui.scene).snapshot
    ensures r.sliders == ui.sliders && r.current == ui.current
    ensures r.scene.order == ui.scene.order && r.scene.segs.Keys == ui.scene.segs.Keys
    ensures forall n :: n in ui.scene.segs ==> r.scene.segs[n].opacity == ui.scene.segs[n].opacity
  {
    if !ui.nav.active then ui
    else
      var f := Focus.Activate(ui.scene);
      match ui.current
      case None => ui.(nav := f)
      case Some(t) =>
        var (g, sc) := Focus.FocusOn(Cardio, f, ui.scene, t);
        ui.(nav := g, scene := sc)
  }

  /**
   * The corrected re-application: keep the snapshot taken when focus mode
   * was entered, except that the type's segments now remember their new
   * user-set opacity; then focus the current tree item again.
   */
  function Refocus(ui: Ui, kind: Kind): (r: Ui)
    ensures !ui.nav.active ==> r == ui
    ensures r.sliders == ui.sliders && r.current == ui.current && r.nav.active == ui.nav.active
    ensures r.scene.order == ui.scene.order && r.scene.segs.Keys == ui.scene.segs.Keys
    ensures forall n :: n in ui.scene.segs ==> r.scene.segs[n].opacity == ui.scene.segs[n].opacity
  {
    if !ui.nav.active then ui
    else
      var f := Remembered(ui, kind);
      match ui.current
      case None => ui.(nav := f)
      case Some(t) =>
        var (g, sc) := Focus.FocusOn(Cardio, f, ui.scene, t);
        ui.(nav := g, scene := sc)
  }

  /** The snapshot with the kind's segments at their current user-set opacity. */
  function Remembered(ui: Ui, kind: Kind): (f: Focus.Navigator)
    ensures f.active == ui.nav.active && f.snapshot.Keys == ui.nav.snapshot.Keys
    ensures forall n :: n in ui.nav.snapshot ==>
      f.snapshot[n] == if OfKind(n, kind) && n in ui.scene.segs
                       then ui.nav.snapshot[n].(opacity := ui.scene.segs[n].opacity)
                       else ui.nav.snapshot[n]
  {
    ui.nav.(snapshot := map n | n in ui.nav.snapshot ::
      if OfKind(n, kind) && n in ui.scene.segs
      then ui.nav.snapshot[n].(opacity := ui.scene.segs[n].opacity)
      else ui.nav.snapshot[n])
  }

  /**
   * The handler's focus re-application: as written it takes a new snapshot,
   * corrected it keeps the one taken when focus mode was entered.
   */
  function Reapply(ui: Ui, kind: Kind, how: Variant): (r: Ui)
    ensures !ui.nav.active ==> r == ui
    ensures r.sliders == ui.sliders && r.current == ui.current && r.nav.active == ui.nav.active
    ensures r.scene.order == ui.scene.order && r.scene.segs.Keys == ui.scene.segs.Keys
    ensures forall n :: n in ui.scene.segs ==> r.scene.segs[n].opacity == ui.scene.segs[n].opacity
  {
    if how == AsWritten then RefocusAsWritten(ui) else Refocus(ui, kind)
  }

  /** One pass of the handler without its slider sync: write the segments, then re-apply focus. */
  function Apply(ui: Ui, kind: Kind, opacity: real, how: Variant): (r: Ui)
    ensures r.sliders == ui.sliders && r.current == ui.current && r.nav.active == ui.nav.active
    ensures r.scene.order == ui.scene.order && r.scene.segs.Keys == ui.scene.segs.Keys
    ensures forall n :: n in ui.scene.segs ==>
      r.scene.segs[n].opacity == if OfKind(n, kind) then opacity else ui.scene.segs[n].opacity
  {
    Reapply(Written(ui, kind, opacity), kind, how)
  }

  /**
   * `set_type_opacity(type, opacity)`: write the matching segments, move the
   * type's slider to `int(opacity * 100)` and re-apply focus. Moving the
   * slider to a new value emits its change signal at once, which runs the
   * handler again with `value / 100`; that nested run finds its slider
   * already in place (`NestedSyncIsQuiet`), so it is one `Apply`.
   */
  function SetTypeOpacityUi(ui: Ui, kind: Kind, opacity: real, how: Variant): (r: Ui)
    ensures r.current == ui.current && r.nav.active == ui.nav.active
    ensures r.scene.order == ui.scene.order && r.scene.segs.Keys == ui.scene.segs.Keys
    ensures forall j :: j != kind ==> SliderOf(r.sliders, j) == SliderOf(ui.sliders, j)
    ensures SliderOf(r.sliders, kind) == SliderPosition(opacity)
    ensures forall n :: n in ui.scene.segs && !OfKind(n, kind) ==>
      r.scene.segs[n].opacity == ui.scene.segs[n].opacity
  {
    Reapply(Synced(ui, kind, opacity, how), kind, how)
  }

  /** The handler up to its own focus re-application: segments written, slider synced. */
  function Synced(ui: Ui, kind: Kind, opacity: real, how: Variant): (r: Ui)
    ensures r.current == ui.current && r.nav.active == ui.nav.active
    ensures r.scene.order == ui.scene.order && r.scene.segs.Keys == ui.scene.segs.Keys
    ensures forall j :: j != kind ==> SliderOf(r.sliders, j) == SliderOf(ui.sliders, j)
    ensures SliderOf(r.sliders, kind) == SliderPosition(opacity)
    ensures forall n :: n in ui.scene.segs && !OfKind(n, kind) ==>
      r.scene.segs[n].opacity == ui.scene.segs[n].opacity
  {
    var v := SliderPosition(opacity);
    if SliderOf(ui.sliders, kind) == v
    then Written(ui, kind, opacity)
    else Apply(Written(ui, kind, opacity).(sliders := WithSlider(ui.sliders, kind, v)), kind, Fraction(v), how)
  }

  /** The handler's first step: the type's segments get the opacity. */
  function Written(ui: Ui, kind: Kind, opacity: real): (r: Ui)
    ensures r.sliders == ui.sliders && r.current == ui.current && r.nav == ui.nav
    ensures r.scene.order == ui.scene.order && r.scene.segs.Keys == ui.scene.segs.Keys
    ensures forall n :: n in ui.scene.segs && OfKind(n, kind) ==>
      r.scene.segs[n] == ui.scene.segs[n].(opacity := opacity, props := ui.scene.segs[n].props.(opacity := opacity))
    ensures forall n :: n in ui.scene.segs && !OfKind(n, kind) ==> r.scene.segs[n] == ui.scene.segs[n]
  {
    OfKindMatches(kind);
    ui.(scene := Heart.SetTypeOpacity(ui.scene, TypeName(kind), opacity))
  }

  /**
   * The nested handler run started by a slider move sets the slider to the
   * value it already has, so Qt emits nothing more and the recursion stops.
   */
  lemma NestedSyncIsQuiet(v: int)
    requires 0 <= v <= 100
    ensures SliderPosition(Fraction(v)) == v
  {
    assert Percent(Fraction(v)) == v as real;
    TruncBounds(v as real);
  }

  /**
   * Slider and segments agree: setting a sliderable type to `s / 100` leaves
   * the slider at `s` and every matching segment at opacity `s / 100`.
   */
  lemma SliderValueRoundTrip(ui: Ui, kind: Kind, s: int, opacity: real, how: Variant)
    requires 0 <= s <= 100 && opacity == Fraction(s)
    ensures var r := SetTypeOpacityUi(ui, kind, opacity, how);
      SliderOf(r.sliders, kind) == s &&
      forall n :: n in ui.scene.segs && OfKind(n, kind) ==> r.scene.segs[n].opacity == opacity
  {
    NestedSyncIsQuiet(s);
  }

  /**
   * An opacity of 1 or more, as a 0..100 value passed where a fraction is
   * expected, pins the slider at 100; either the slider was already there
   * and the segments keep the oversized value, or the slider's signal
   * writes 1.0. No matching segment ends translucent.
   */
  lemma OversizedOpacitySaturates(ui: Ui, kind: Kind, x: real, how: Variant)
    requires x >= 1.0
    ensures var r := SetTypeOpacityUi(ui, kind, x, how);
      SliderOf(r.sliders, kind) == 100 &&
      forall n :: n in ui.scene.segs && OfKind(n, kind) ==> r.scene.segs[n].opacity >= 1.0
  {
    TruncBounds(Percent(x));
    assert SliderPosition(x) == 100;
  }

  // ---- focus mode across an opacity change ----

  /**
   * The snapshot still holds the pre-focus ambient of every segment and the
   * pre-focus opacity of every segment outside the type.
   */
  ghost predicate KeepsOriginals(nav: Focus.Navigator, sc0: Scene, sc: Scene, kind: Kind) {
    && nav.active && nav.snapshot.Keys == sc0.segs.Keys && sc.segs.Keys == sc0.segs.Keys
    && forall n :: n in sc0.segs ==>
      && nav.snapshot[n].ambient == sc0.segs[n].props.ambient
      && (!OfKind(n, kind) ==> nav.snapshot[n].opacity == sc0.segs[n].props.opacity)
  }

  /** ... and the type's segments remember their user-set opacity. */
  ghost predicate Remembers(nav: Focus.Navigator, sc0: Scene, sc: Scene, kind: Kind) {
    && KeepsOriginals(nav, sc0, sc, kind)
    && forall n :: n in sc0.segs && OfKind(n, kind) ==> nav.snapshot[n].opacity == sc.segs[n].opacity
  }

  /** The corrected re-application keeps the originals and records the new opacity. */
  lemma RefocusRemembers(ui: Ui, sc0: Scene, kind: Kind)
    requires KeepsOriginals(ui.nav, sc0, ui.scene, kind)
    ensures var r := Refocus(ui, kind);
      Remembers(r.nav, sc0, r.scene, kind)
  {
    var f := Remembered(ui, kind);
    assert Remembers(f, sc0, ui.scene, kind);
    if ui.current.Some? {
      RefocusedNavigator(ui, sc0, kind);
    }
  }

  /** Re-focusing the current item keeps the updated snapshot. */
  lemma RefocusedNavigator(ui: Ui, sc0: Scene, kind: Kind)
    requires KeepsOriginals(ui.nav, sc0, ui.scene, kind) && ui.current.Some?
    ensures Refocus(ui, kind).nav.snapshot == Remembered(ui, kind).snapshot
  {
    var f := Remembered(ui, kind);
    if |f.snapshot| == 0 {
      assert f.snapshot.Keys == {};
      assert Focus.Activate(ui.scene).snapshot.Keys == {};
    }
  }

  /** Writing the type's segments does not touch the snapshot's originals. */
  lemma WrittenKeepsOriginals(ui: Ui, sc0: Scene, kind: Kind, opacity: real)
    requires KeepsOriginals(ui.nav, sc0, ui.scene, kind)
    ensures var r := Written(ui, kind, opacity);
      KeepsOriginals(r.nav, sc0, r.scene, kind)
  {
  }

  /** The handler's slider sync, nested run included, keeps the snapshot's originals. */
  lemma SyncedKeepsOriginals(ui: Ui, sc0: Scene, kind: Kind, opacity: real)
    requires KeepsOriginals(ui.nav, sc0, ui.scene, kind)
    ensures var r := Synced(ui, kind, opacity, Corrected);
      KeepsOriginals(r.nav, sc0, r.scene, kind)
  {
    var v := SliderPosition(opacity);
    if SliderOf(ui.sliders, kind) == v {
      WrittenKeepsOriginals(ui, sc0, kind, opacity);
      SyncedStays(ui, kind, opacity);
    } else {
      MovedKeepsOriginals(ui, sc0, kind, opacity);
    }
  }

  /** The nested run of a moved slider keeps the snapshot's originals. */
  lemma MovedKeepsOriginals(ui: Ui, sc0: Scene, kind: Kind, opacity: real)
    requires KeepsOriginals(ui.nav, sc0, ui.scene, kind)
    requires SliderOf(ui.sliders, kind) != SliderPosition(opacity)
    ensures var r := Synced(ui, kind, opacity, Corrected);
      KeepsOriginals(r.nav, sc0, r.scene, kind)
  {
    var v := SliderPosition(opacity);
    var moved := Written(ui, kind, opacity).(sliders := WithSlider(ui.sliders, kind, v));
    WrittenKeepsOriginals(ui, sc0, kind, opacity);
    WrittenKeepsOriginals(moved, sc0, kind, Fraction(v));
    SyncedMoves(ui, kind, opacity);
    RefocusRemembers(Written(moved, kind, Fraction(v)), sc0, kind);
  }

  /** When the slider stays, the handler's sync is the segment write alone. */
  lemma SyncedStays(ui: Ui, kind: Kind, opacity: real)
    requires SliderOf(ui.sliders, kind) == SliderPosition(opacity)
    ensures Synced(ui, kind, opacity, Corrected) == Written(ui, kind, opacity)
  {
  }

  /** When the slider moves, the handler's sync is the nested run. */
  lemma SyncedMoves(ui: Ui, kind: Kind, opacity: real)
    requires SliderOf(ui.sliders, kind) != SliderPosition(opacity)
    ensures var v := SliderPosition(opacity);
      var moved := Written(ui, kind, opacity).(sliders := WithSlider(ui.sliders, kind, v));
      Synced(ui, kind, opacity, Corrected) == Refocus(Written(moved, kind, Fraction(v)), kind)
  {
  }

  /** A whole `set_type_opacity` call, corrected, leaves a snapshot that remembers. */
  lemma SetTypeOpacityRemembers(ui: Ui, sc0: Scene, kind: Kind, opacity: real)
    requires KeepsOriginals(ui.nav, sc0, ui.scene, kind)
    ensures var r := SetTypeOpacityUi(ui, kind, opacity, Corrected);
      Remembers(r.nav, sc0, r.scene, kind)
  {
    SyncedKeepsOriginals(ui, sc0, kind, opacity);
    RefocusRemembers(Synced(ui, kind, opacity, Corrected), sc0, kind);
  }

  /**
   * Enter focus mode, click any segments, change a type's opacity, leave
   * focus mode: every segment gets back its pre-focus ambient, the type's
   * segments show their new user-set opacity and all others their
   * pre-focus opacity.
   */
  lemma FocusExitAfterOpacityChange(sc0: Scene, targets: seq<string>, sliders: Sliders,
                                    current: Option<string>, kind: Kind, opacity: real)
    ensures var mid := Focus.FocusAll(Cardio, Focus.Activate(sc0), sc0, targets);
      var changed := SetTypeOpacityUi(Ui(mid.1, sliders, mid.0, current), kind, opacity, Corrected);
      var out := Focus.Deactivate(Cardio, changed.nav, changed.scene);
      out.1.segs.Keys == sc0.segs.Keys &&
      forall n :: n in sc0.segs ==>
        && out.1.segs[n].props.ambient == sc0.segs[n].props.ambient
        && out.1.segs[n].props.opacity ==
             if OfKind(n, kind) then changed.scene.segs[n].opacity else sc0.segs[n].props.opacity
  {
    assert Focus.SameBut(sc0.segs, sc0.segs) by {
      forall n | n in sc0.segs ensures sc0.segs[n] == sc0.segs[n].(props := sc0.segs[n].props.(
        opacity := sc0.segs[n].props.opacity, ambient := sc0.segs[n].props.ambient)) {
      }
    }
    Focus.FocusAllKeepsSnapshot(Cardio, sc0, sc0, targets);
    var mid := Focus.FocusAll(Cardio, Focus.Activate(sc0), sc0, targets);
    var ui := Ui(mid.1, sliders, mid.0, current);
    assert KeepsOriginals(ui.nav, sc0, ui.scene, kind);
    SetTypeOpacityRemembers(ui, sc0, kind, opacity);
    var changed := SetTypeOpacityUi(ui, kind, opacity, Corrected);
    var out := Focus.Deactivate(Cardio, changed.nav, changed.scene);
    forall n | n in sc0.segs
      ensures out.1.segs[n].props.ambient == sc0.segs[n].props.ambient
      ensures out.1.segs[n].props.opacity ==
        if OfKind(n, kind) then changed.scene.segs[n].opacity else sc0.segs[n].props.opacity
    {
      assert out.1.segs[n] == Focus.Restore(Cardio, changed.nav.snapshot[n], changed.scene.segs[n]);
    }
  }

  /**
   * As written, leaving focus mode right after a type change brings back the
   * properties the segments showed inside focus mode (the target lit, the
   * others dimmed), not the ones they had before it.
   */
  lemma RefocusAsWrittenRestoresFocusLook(ui: Ui)
    requires ui.nav.active
    ensures var changed := RefocusAsWritten(ui);
      var out := Focus.Deactivate(Cardio, changed.nav, changed.scene);
      forall n :: n in ui.scene.segs ==>
        && out.1.segs[n].props.ambient == ui.scene.segs[n].props.ambient
        && out.1.segs[n].props.opacity == ui.scene.segs[n].props.opacity
  {
    var changed := RefocusAsWritten(ui);
    var out := Focus.Deactivate(Cardio, changed.nav, changed.scene);
    forall n | n in ui.scene.segs
      ensures out.1.segs[n].props.ambient == ui.scene.segs[n].props.ambient
      ensures out.1.segs[n].props.opacity == ui.scene.segs[n].props.opacity
    {
      assert changed.nav.snapshot[n] == Focus.Snap(ui.scene.segs[n].props.opacity, ui.scene.segs[n].props.ambient);
      assert out.1.segs[n] == Focus.Restore(Cardio, changed.nav.snapshot[n], changed.scene.segs[n]);
    }
  }

  /**
   * The heart viewer as written loses the pre-focus look: an aorta at
   * ambient 0.2 is focused, then the artery handler sets opacity 0.5 with
   * the slider already at 50 (so no slider signal). After focus mode ends
   * the aorta is still lit at ambient 0.8, where the corrected handler gives
   * back 0.2.
   */
  lemma RefocusAsWrittenForgets(seg: Segment)
    requires seg.props.ambient == 0.2
    ensures var sc0 := Scene(["Aorta"], map["Aorta" := seg]);
      var focused := Focus.FocusOn(Cardio, Focus.Activate(sc0), sc0, "Aorta");
      var ui := Ui(focused.1, DefaultSliders.(artery := 50), focused.0, Some("Aorta"));
      var changed := SetTypeOpacityUi(ui, Artery, 0.5, AsWritten);
      Focus.Deactivate(Cardio, changed.nav, changed.scene).1.segs["Aorta"].props.ambient == 0.8
  {
    TruncBounds(Percent(0.5));
    assert SliderPosition(0.5) == 50;
    var sc0 := Scene(["Aorta"], map["Aorta" := seg]);
    var focused := Focus.FocusOn(Cardio, Focus.Activate(sc0), sc0, "Aorta");
    assert focused.1.segs["Aorta"].props.ambient == 0.8;
    HandlerAsWrittenKeepsFocusLook(Ui(focused.1, DefaultSliders.(artery := 50), focused.0, Some("Aorta")), Artery, 0.5);
  }

  /**
   * In focus mode, the handler as written with its slider already in place
   * leaves the snapshot holding the focus look: leaving focus mode right
   * after brings back the ambient each segment showed inside focus mode.
   */
  lemma HandlerAsWrittenKeepsFocusLook(ui: Ui, kind: Kind, opacity: real)
    requires ui.nav.active && SliderOf(ui.sliders, kind) == SliderPosition(opacity)
    ensures var changed := SetTypeOpacityUi(ui, kind, opacity, AsWritten);
      forall n :: n in ui.scene.segs ==>
        Focus.Deactivate(Cardio, changed.nav, changed.scene).1.segs[n].props.ambient == ui.scene.segs[n].props.ambient
  {
    var w := Written(ui, kind, opacity);
    assert SetTypeOpacityUi(ui, kind, opacity, AsWritten) == RefocusAsWritten(w);
    RefocusAsWrittenRestoresFocusLook(w);
  }

  /** The same steps through the corrected handler give the aorta back its ambient 0.2. */
  lemma RefocusKeepsAortaAmbient(seg: Segment)
    requires seg.props.ambient == 0.2
    ensures var sc0 := Scene(["Aorta"], map["Aorta" := seg]);
      var focused := Focus.FocusOn(Cardio, Focus.Activate(sc0), sc0, "Aorta");
      var ui := Ui(focused.1, DefaultSliders.(artery := 50), focused.0, Some("Aorta"));
      var changed := SetTypeOpacityUi(ui, Artery, 0.5, Corrected);
      Focus.Deactivate(Cardio, changed.nav, changed.scene).1.segs["Aorta"].props.ambient == 0.2
  {
    FocusExitAfterOpacityChange(Scene(["Aorta"], map["Aorta" := seg]), ["Aorta"],
                                DefaultSliders.(artery := 50), Some("Aorta"), Artery, 0.5);
  }

  // ---- the blood-flow tour (cardiovascular_system.py:1954-2029, 2131-2178, 2357-2361) ----

  /** Tour bookkeeping: the flight, the tour flag and the vessel opacities saved at the start. */
  datatype Tour = Tour(flight: Flight.Flight, flightMode: bool, originalArtery: real, originalVein: real)

  /**
   * `stop_all_camera_motion`: the flight timer stops if a tour or dive is on,
   * both flags drop, and a dive's clip planes are removed from every segment.
   */
  function StopMotion(t: Tour, sc: Scene): (r: (Tour, Scene))
    ensures !r.0.flightMode && !r.0.flight.diving
    ensures t.flightMode || t.flight.diving ==> !r.0.flight.running
    ensures r.0.originalArtery == t.originalArtery && r.0.originalVein == t.originalVein
    ensures r.1 == if t.flight.diving then SetClipAll(sc, NoClip) else sc
  {
    var stop := t.flightMode || t.flight.diving;
    (t.(flightMode := false, flight := t.flight.(running := t.flight.running && !stop, diving := false)),
     if t.flight.diving then SetClipAll(sc, NoClip) else sc)
  }

  /** The vessels back at the saved opacities, as the corrected restore passes them: arteries first, then veins. */
  function RestoreVessels(t: Tour, ui: Ui): Ui {
    ArteryThenVein(ui, t.originalArtery, t.originalVein)
  }

  /** The same restore as written: the saved fractions are scaled by 100 before being passed on. */
  function RestoreVesselsAsWritten(t: Tour, ui: Ui): Ui {
    ArteryThenVein(ui, Percent(t.originalArtery), Percent(t.originalVein))
  }

  /** The handler for arteries with opacity `a`, then for veins with opacity `v`. */
  function ArteryThenVein(ui: Ui, a: real, v: real): Ui {
    SetTypeOpacityUi(SetTypeOpacityUi(ui, Artery, a, AsWritten), Vein, v, AsWritten)
  }

  /** Both vessel kinds at opacity 0.2, their sliders at 20. */
  function Translucent(ui: Ui): (r: Ui)
    ensures r.sliders == ui.sliders.(artery := 20, vein := 20)
    ensures r.scene.segs.Keys == ui.scene.segs.Keys
  {
    NestedSyncIsQuiet(20);
    var a := SetTypeOpacityUi(ui, Artery, 0.2, AsWritten);
    assert SliderOf(a.sliders, Artery) == 20;
    var r := SetTypeOpacityUi(a, Vein, 0.2, AsWritten);
    assert SliderOf(r.sliders, Artery) == 20;
    r
  }

  /**
   * `toggle_guided_tour(True)`: stop other camera motion; when recording
   * declines, give up with both flags down. Otherwise save the vessel
   * sliders as fractions, set both vessel types to 0.2, clip every segment
   * with the flight plane and fly the tour for `speed * 30` ticks.
   */
  function StartTour(t: Tour, ui: Ui, current: Flight.Camera, recordingOk: bool, speed: nat): (r: (Tour, Ui))
    ensures !recordingOk ==> !r.0.flightMode && !r.0.flight.diving && r.1.sliders == ui.sliders
    ensures recordingOk ==>
      && r.0.flightMode && r.0.flight.running && r.0.flight.diving && r.0.flight.step == 0
      && r.0.flight.duration == speed * 30
      && r.0.flight.path == Flight.CardioTour
      && r.0.originalArtery == Fraction(ui.sliders.artery)
      && r.0.originalVein == Fraction(ui.sliders.vein)
      && r.1.sliders.artery == 20 && r.1.sliders.vein == 20
      && forall n :: n in ui.scene.segs ==> n in r.1.scene.segs && r.1.scene.segs[n].clip == FlightPlane
  {
    var (stopped, sc) := StopMotion(t, ui.scene);
    var ui1 := ui.(scene := sc);
    if !recordingOk then (stopped, ui1)
    else BeginTour(stopped, ui1, current, speed)
  }

  /** The tour once recording has agreed: save the vessel sliders, go translucent, clip and fly. */
  function BeginTour(t: Tour, ui: Ui, current: Flight.Camera, speed: nat): (r: (Tour, Ui))
    ensures && r.0.flightMode && r.0.flight.running && r.0.flight.diving && r.0.flight.step == 0
      && r.0.flight.duration == speed * 30
      && r.0.flight.path == Flight.CardioTour
      && r.0.originalArtery == Fraction(ui.sliders.artery)
      && r.0.originalVein == Fraction(ui.sliders.vein)
      && r.1.sliders == ui.sliders.(artery := 20, vein := 20)
      && forall n :: n in ui.scene.segs ==> n in r.1.scene.segs && r.1.scene.segs[n].clip == FlightPlane
  {
    var saved := t.(originalArtery := Fraction(ui.sliders.artery), originalVein := Fraction(ui.sliders.vein));
    var ui2 := Translucent(ui);
    Flight.CardioTourIgnoresStart(current);
    var (fl, sc2) := Flight.Launch(Cardio, saved.flight, ui2.scene, Flight.TourPath(current, Flight.CardioTour), speed);
    (saved.(flight := fl, flightMode := true), ui2.(scene := sc2))
  }

  /**
   * `toggle_guided_tour(False)` and `reset_camera`, as written: stop camera
   * motion, pass the saved vessel fractions times 100 to the opacity
   * handler, and remove every segment's clip planes.
   */
  function StopTour(t: Tour, ui: Ui): (r: (Tour, Ui))
    ensures !r.0.flightMode && !r.0.flight.diving
    ensures r.0.originalArtery == t.originalArtery && r.0.originalVein == t.originalVein
    ensures r.1.sliders.ventricle == ui.sliders.ventricle && r.1.sliders.atrium == ui.sliders.atrium
    ensures r.1.scene.segs.Keys == ui.scene.segs.Keys
    ensures forall n :: n in ui.scene.segs ==> r.1.scene.segs[n].clip == NoClip
  {
    StopThenRestore(t, ui, Percent(t.originalArtery), Percent(t.originalVein))
  }

  /** The same stop with the corrected restore, which passes the saved fractions unscaled. */
  function StopTourCorrected(t: Tour, ui: Ui): (r: (Tour, Ui))
    ensures !r.0.flightMode && !r.0.flight.diving
    ensures r.0.originalArtery == t.originalArtery && r.0.originalVein == t.originalVein
    ensures r.1.sliders.ventricle == ui.sliders.ventricle && r.1.sliders.atrium == ui.sliders.atrium
    ensures r.1.scene.segs.Keys == ui.scene.segs.Keys
    ensures forall n :: n in ui.scene.segs ==> r.1.scene.segs[n].clip == NoClip
  {
    StopThenRestore(t, ui, t.originalArtery, t.originalVein)
  }

  /** Stop camera motion, run the handler for arteries with `a` and veins with `v`, unclip everything. */
  function StopThenRestore(t: Tour, ui: Ui, a: real, v: real): (r: (Tour, Ui))
    ensures !r.0.flightMode && !r.0.flight.diving
    ensures r.0.originalArtery == t.originalArtery && r.0.originalVein == t.originalVein
    ensures r.1.sliders.ventricle == ui.sliders.ventricle && r.1.sliders.atrium == ui.sliders.atrium
    ensures r.1.scene.segs.Keys == ui.scene.segs.Keys
    ensures forall n :: n in ui.scene.segs ==> r.1.scene.segs[n].clip == NoClip
  {
    var (stopped, sc) := StopMotion(t, ui.scene);
    var restored := ArteryThenVein(ui.(scene := sc), a, v);
    assert SliderOf(restored.sliders, Ventricle) == SliderOf(ui.sliders, Ventricle);
    assert SliderOf(restored.sliders, Atrium) == SliderOf(ui.sliders, Atrium);
    (stopped, restored.(scene := SetClipAll(restored.scene, NoClip)))
  }

  /**
   * `update_flight_animation` in the heart viewer, as written: a flight
   * tick; when a tour or dive ends, drop the tour flag, pass the saved
   * vessel fractions times 100 to the opacity handler and remove every
   * segment's clip planes.
   */
  function TourTick(t: Tour, ui: Ui, interp: (seq<Flight.Key>, real) -> Flight.Camera,
                    norm: Vec3 -> real): (r: (Tour, Ui))
    requires t.flight.running && t.flight.duration > 0
    ensures r.0.flight.running <==> t.flight.step + 1 < t.flight.duration
    ensures r.0.flight.running ==> r.1 == ui && r.0.flight.diving == t.flight.diving
    ensures !r.0.flight.running && t.flight.diving ==> !r.0.flightMode
    ensures !r.0.flight.running && t.flight.diving ==>
      r.1 == ArteryThenVein(ui, Percent(t.originalArtery), Percent(t.originalVein)).(scene :=
        SetClipAll(ArteryThenVein(ui, Percent(t.originalArtery), Percent(t.originalVein)).scene, NoClip))
  {
    TickThenRestore(t, ui, interp, norm, Percent(t.originalArtery), Percent(t.originalVein))
  }

  /** The same tick with the corrected restore. */
  function TourTickCorrected(t: Tour, ui: Ui, interp: (seq<Flight.Key>, real) -> Flight.Camera,
                             norm: Vec3 -> real): (r: (Tour, Ui))
    requires t.flight.running && t.flight.duration > 0
    ensures r.0.flight.running <==> t.flight.step + 1 < t.flight.duration
    ensures r.0.flight.running ==> r.1 == ui && r.0.flight.diving == t.flight.diving
    ensures !r.0.flight.running && t.flight.diving ==> !r.0.flightMode
    ensures !r.0.flight.running && t.flight.diving ==>
      r.1 == RestoreVessels(t, ui).(scene := SetClipAll(RestoreVessels(t, ui).scene, NoClip))
  {
    TickThenRestore(t, ui, interp, norm, t.originalArtery, t.originalVein)
  }

  /** A heart flight tick whose end runs the handler for arteries with `a` and veins with `v`. */
  function TickThenRestore(t: Tour, ui: Ui, interp: (seq<Flight.Key>, real) -> Flight.Camera,
                           norm: Vec3 -> real, a: real, v: real): (r: (Tour, Ui))
    requires t.flight.running && t.flight.duration > 0
    ensures r.0.flight.running <==> t.flight.step + 1 < t.flight.duration
    ensures r.0.flight.running ==> r.1 == ui && r.0.flight.diving == t.flight.diving
    ensures !r.0.flight.running && t.flight.diving ==> !r.0.flightMode
    ensures !r.0.flight.running && t.flight.diving ==>
      r.1 == ArteryThenVein(ui, a, v).(scene := SetClipAll(ArteryThenVein(ui, a, v).scene, NoClip))
  {
    var (fl, sc) := Flight.Tick(Cardio, t.flight, ui.scene, interp, norm);
    if !fl.running && t.flight.diving then
      var restored := ArteryThenVein(ui, a, v);
      (t.(flight := fl, flightMode := false), restored.(scene := SetClipAll(restored.scene, NoClip)))
    else (t.(flight := fl), ui.(scene := sc))
  }

  /** The vessel opacity a segment ends with after a restore that leaves the sliders at `sa` and `sv`. */
  function VesselOpacity(n: string, before: real, sa: int, sv: int): real {
    if OfKind(n, Vein) then Fraction(sv)
    else if OfKind(n, Artery) then Fraction(sa)
    else before
  }

  /**
   * The slider position a saved position `s` comes back as when `s / 100`
   * is scaled by 100 and passed as an opacity: 0 stays 0, anything else
   * pins the slider at 100.
   */
  function Saturated(s: int): int {
    if s == 0 then 0 else 100
  }

  /**
   * The corrected restore puts the sliders back where they were saved and
   * every vessel segment at the saved fraction (veins last, so a name that
   * matches both takes the vein value); other segments keep their opacity.
   */
  lemma RestoreVesselsReturns(t: Tour, ui: Ui, sa: int, sv: int)
    requires 0 <= sa <= 100 && 0 <= sv <= 100
    requires t.originalArtery == Fraction(sa) && t.originalVein == Fraction(sv)
    ensures var r := RestoreVessels(t, ui);
      && r.sliders == ui.sliders.(artery := sa, vein := sv)
      && r.scene.segs.Keys == ui.scene.segs.Keys
      && forall n :: n in ui.scene.segs ==>
           r.scene.segs[n].opacity == VesselOpacity(n, ui.scene.segs[n].opacity, sa, sv)
  {
    var a := SetTypeOpacityUi(ui, Artery, t.originalArtery, AsWritten);
    SliderValueRoundTrip(ui, Artery, sa, t.originalArtery, AsWritten);
    SliderValueRoundTrip(a, Vein, sv, t.originalVein, AsWritten);
    forall n | n in ui.scene.segs
      ensures RestoreVessels(t, ui).scene.segs[n].opacity == VesselOpacity(n, ui.scene.segs[n].opacity, sa, sv)
    {
      if OfKind(n, Vein) {
        VeinRestoredAt(ui, t.originalArtery, sv, Fraction(sv), n);
      } else {
        ArteryRestoredAt(ui, sa, Fraction(sa), t.originalVein, n);
      }
    }
    SlidersAfter(ui, t.originalArtery, t.originalVein, sa, sv);
  }

  /**
   * As written, the restore after a tour (which left both vessel sliders
   * strictly inside their range) pins each vessel slider at 100 unless its
   * saved position was 0, and the vessels follow their slider: a saved
   * artery position of 30 brings the arteries back fully opaque.
   */
  lemma RestoreVesselsAsWrittenPins(t: Tour, ui: Ui, sa: int, sv: int)
    requires 0 <= sa <= 100 && 0 <= sv <= 100
    requires t.originalArtery == Fraction(sa) && t.originalVein == Fraction(sv)
    requires 0 < ui.sliders.artery < 100 && 0 < ui.sliders.vein < 100
    ensures var r := RestoreVesselsAsWritten(t, ui);
      && r.sliders == ui.sliders.(artery := Saturated(sa), vein := Saturated(sv))
      && r.scene.segs.Keys == ui.scene.segs.Keys
      && forall n :: n in ui.scene.segs ==>
           r.scene.segs[n].opacity == VesselOpacity(n, ui.scene.segs[n].opacity, Saturated(sa), Saturated(sv))
  {
    assert Percent(t.originalArtery) == sa as real && Percent(t.originalVein) == sv as real;
    var a := SetTypeOpacityUi(ui, Artery, sa as real, AsWritten);
    WholeValuePins(ui, Artery, sa, AsWritten);
    WholeValuePins(a, Vein, sv, AsWritten);
    forall n | n in ui.scene.segs
      ensures RestoreVesselsAsWritten(t, ui).scene.segs[n].opacity ==
        VesselOpacity(n, ui.scene.segs[n].opacity, Saturated(sa), Saturated(sv))
    {
      if OfKind(n, Vein) {
        VeinRestoredAt(ui, sa as real, Saturated(sv), sv as real, n);
      } else {
        ArteryRestoredAt(ui, Saturated(sa), sa as real, sv as real, n);
      }
    }
    SlidersAfter(ui, sa as real, sv as real, Saturated(sa), Saturated(sv));
  }

  /**
   * A whole slider position `s` passed as an opacity, against a slider
   * strictly inside its range: the slider moves to 0 or 100, and its signal
   * writes that fraction to the kind's segments.
   */
  lemma WholeValuePins(ui: Ui, kind: Kind, s: int, how: Variant)
    requires 0 <= s <= 100 && 0 < SliderOf(ui.sliders, kind) < 100
    ensures var r := SetTypeOpacityUi(ui, kind, s as real, how);
      && SliderOf(r.sliders, kind) == Saturated(s)
      && forall n :: n in ui.scene.segs && OfKind(n, kind) ==> r.scene.segs[n].opacity == Fraction(Saturated(s))
  {
    TruncBounds(Percent(s as real));
    if s > 0 {
      assert Percent(s as real) >= 100.0;
    }
    assert SliderPosition(s as real) == Saturated(s);
  }

  /** The sliders after both vessel passes, when the passes leave them at `sa` and `sv`. */
  lemma SlidersAfter(ui: Ui, a: real, v: real, sa: int, sv: int)
    requires SliderOf(SetTypeOpacityUi(ui, Artery, a, AsWritten).sliders, Artery) == sa
    requires SliderOf(ArteryThenVein(ui, a, v).sliders, Vein) == sv
    ensures ArteryThenVein(ui, a, v).sliders == ui.sliders.(artery := sa, vein := sv)
  {
    var x := SetTypeOpacityUi(ui, Artery, a, AsWritten);
    var r := ArteryThenVein(ui, a, v);
    assert SliderOf(r.sliders, Artery) == SliderOf(x.sliders, Artery);
    assert SliderOf(r.sliders, Ventricle) == SliderOf(ui.sliders, Ventricle);
    assert SliderOf(r.sliders, Atrium) == SliderOf(ui.sliders, Atrium);
  }

  /** A vein segment takes the vein pass's value `x`, whatever the artery pass did. */
  lemma VeinRestoredAt(ui: Ui, a: real, sv: int, v: real, n: string)
    requires n in ui.scene.segs && OfKind(n, Vein)
    requires forall m :: m in ui.scene.segs && OfKind(m, Vein) ==>
      SetTypeOpacityUi(SetTypeOpacityUi(ui, Artery, a, AsWritten), Vein, v, AsWritten).scene.segs[m].opacity == Fraction(sv)
    ensures ArteryThenVein(ui, a, v).scene.segs[n].opacity == Fraction(sv)
  {
  }

  /** A segment that is not a vein keeps what the artery pass left. */
  lemma ArteryRestoredAt(ui: Ui, sa: int, a: real, v: real, n: string)
    requires n in ui.scene.segs && !OfKind(n, Vein)
    requires forall m :: m in ui.scene.segs && OfKind(m, Artery) ==>
      SetTypeOpacityUi(ui, Artery, a, AsWritten).scene.segs[m].opacity == Fraction(sa)
    ensures ArteryThenVein(ui, a, v).scene.segs[n].opacity ==
      if OfKind(n, Artery) then Fraction(sa) else ui.scene.segs[n].opacity
  {
  }

  /**
   * As written, the restore passes the saved fraction times 100: for any
   * saved slider position of at least 1, every artery segment that is not
   * also a vein ends fully opaque and the artery slider at 100. With the
   * default slider of 30 the aorta ends at 1.0 instead of 0.3.
   */
  lemma RestoreVesselsAsWrittenSaturates(t: Tour, ui: Ui, n: string)
    requires t.originalArtery >= 0.01
    requires n in ui.scene.segs && OfKind(n, Artery) && !OfKind(n, Vein)
    ensures var r := RestoreVesselsAsWritten(t, ui);
      r.sliders.artery == 100 && r.scene.segs[n].opacity >= 1.0
  {
    ArteryThenVeinSaturates(ui, Percent(t.originalArtery), Percent(t.originalVein), n);
  }

  /** An oversized artery opacity followed by any vein opacity leaves a pure artery segment opaque. */
  lemma ArteryThenVeinSaturates(ui: Ui, x: real, y: real, n: string)
    requires x >= 1.0
    requires n in ui.scene.segs && OfKind(n, Artery) && !OfKind(n, Vein)
    ensures var r := ArteryThenVein(ui, x, y);
      r.sliders.artery == 100 && r.scene.segs[n].opacity >= 1.0
  {
    OversizedOpacitySaturates(ui, Artery, x, AsWritten);
  }

  /**
   * A tour started and then stopped by hand (or by a camera reset), as
   * written: the ventricle and atrium sliders are back, each vessel slider
   * is pinned at 100 unless it was saved at 0, every vessel segment is at
   * its slider's fraction, and no segment keeps a clip plane.
   */
  lemma TourRoundTrip(t: Tour, ui: Ui, current: Flight.Camera, speed: nat)
    requires 0 <= ui.sliders.artery <= 100 && 0 <= ui.sliders.vein <= 100
    ensures var started := StartTour(t, ui, current, true, speed);
      var stopped := StopTour(started.0, started.1);
      var sa := Saturated(ui.sliders.artery);
      var sv := Saturated(ui.sliders.vein);
      && stopped.1.sliders == ui.sliders.(artery := sa, vein := sv)
      && stopped.1.scene.segs.Keys == ui.scene.segs.Keys
      && forall n :: n in ui.scene.segs ==>
           && stopped.1.scene.segs[n].clip == NoClip
           && (OfKind(n, Artery) || OfKind(n, Vein) ==> stopped.1.scene.segs[n].opacity == VesselOpacity(n, 0.0, sa, sv))
  {
    var started := StartTour(t, ui, current, true, speed);
    var (halted, sc) := StopMotion(started.0, started.1.scene);
    var mid := started.1.(scene := sc);
    RestoreVesselsAsWrittenPins(halted, mid, ui.sliders.artery, ui.sliders.vein);
  }

  /**
   * The same round trip with the corrected restore gives the vessels back
   * the opacities of the sliders at the start and puts every slider back.
   */
  lemma TourRoundTripCorrected(t: Tour, ui: Ui, current: Flight.Camera, speed: nat)
    requires 0 <= ui.sliders.artery <= 100 && 0 <= ui.sliders.vein <= 100
    ensures var started := StartTour(t, ui, current, true, speed);
      var stopped := StopTourCorrected(started.0, started.1);
      && stopped.1.sliders == ui.sliders
      && stopped.1.scene.segs.Keys == ui.scene.segs.Keys
      && forall n :: n in ui.scene.segs ==>
           && stopped.1.scene.segs[n].clip == NoClip
           && (OfKind(n, Artery) || OfKind(n, Vein) ==>
                 stopped.1.scene.segs[n].opacity == VesselOpacity(n, 0.0, ui.sliders.artery, ui.sliders.vein))
  {
    var started := StartTour(t, ui, current, true, speed);
    var (halted, sc) := StopMotion(started.0, started.1.scene);
    var mid := started.1.(scene := sc);
    RestoreVesselsReturns(halted, mid, ui.sliders.artery, ui.sliders.vein);
  }

  /**
   * The tick that ends a tour, as written, against the sliders the tour
   * start left: each vessel slider is pinned at 100 unless it was saved at
   * 0, and every vessel segment is at its slider's fraction.
   */
  lemma TourEndPins(t: Tour, ui: Ui, interp: (seq<Flight.Key>, real) -> Flight.Camera, norm: Vec3 -> real,
                    sa: int, sv: int)
    requires t.flight.running && t.flight.diving && t.flight.duration > 0 && t.flight.step + 1 >= t.flight.duration
    requires 0 <= sa <= 100 && 0 <= sv <= 100
    requires t.originalArtery == Fraction(sa) && t.originalVein == Fraction(sv)
    requires ui.sliders.artery == 20 && ui.sliders.vein == 20
    ensures var r := TourTick(t, ui, interp, norm);
      && !r.0.flight.running && !r.0.flightMode
      && r.1.sliders == ui.sliders.(artery := Saturated(sa), vein := Saturated(sv))
      && forall n :: n in ui.scene.segs ==>
           && r.1.scene.segs[n].clip == NoClip
           && r.1.scene.segs[n].opacity == VesselOpacity(n, ui.scene.segs[n].opacity, Saturated(sa), Saturated(sv))
  {
    RestoreVesselsAsWrittenPins(t, ui, sa, sv);
  }

  /** The corrected end of a tour puts both vessel sliders back and each vessel at its slider's fraction. */
  lemma TourEndCorrected(t: Tour, ui: Ui, interp: (seq<Flight.Key>, real) -> Flight.Camera, norm: Vec3 -> real,
                         sa: int, sv: int)
    requires t.flight.running && t.flight.diving && t.flight.duration > 0 && t.flight.step + 1 >= t.flight.duration
    requires 0 <= sa <= 100 && 0 <= sv <= 100
    requires t.originalArtery == Fraction(sa) && t.originalVein == Fraction(sv)
    ensures var r := TourTickCorrected(t, ui, interp, norm);
      && !r.0.flight.running && !r.0.flightMode
      && r.1.sliders == ui.sliders.(artery := sa, vein := sv)
      && forall n :: n in ui.scene.segs ==>
           && r.1.scene.segs[n].clip == NoClip
           && r.1.scene.segs[n].opacity == VesselOpacity(n, ui.scene.segs[n].opacity, sa, sv)
  {
    RestoreVesselsReturns(t, ui, sa, sv);
  }
}
