/**
 * The heart viewer's per-segment logic: the name classifiers that pick a
 * segment's chamber type and colour, the per-tick glow and contraction of
 * `update_animation`, the mesh reset, and `set_type_opacity`.
 */
module Heart {
  import opened Wrappers
  import opened Text
  import opened Geometry
  import opened Scene
  import Ecg

  // ---- Name classifiers (cardiovascular_system.py:1400-1417) ----

  /** The types `detect_type` can answer. */
  predicate IsPartType(t: string) {
    t == "Ventricle" || t == "Atrium" || t == "Artery" || t == "Vein" || t == "Other"
  }

  /**
   * `detect_type`: the first of ventricle, atrium, aorta or artery, cava or
   * vein that occurs in the lower-cased name decides the type.
   */
  function DetectType(name: string): (t: string)
    ensures IsPartType(t)
    ensures t == "Ventricle" <==> Mentions(name, "ventricle")
    ensures t == "Atrium" <==> !Mentions(name, "ventricle") && Mentions(name, "atrium")
    ensures t == "Artery" <==>
      !Mentions(name, "ventricle") && !Mentions(name, "atrium") &&
      (Mentions(name, "aorta") || Mentions(name, "artery"))
    ensures t == "Vein" <==>
      !Mentions(name, "ventricle") && !Mentions(name, "atrium") &&
      !Mentions(name, "aorta") && !Mentions(name, "artery") &&
      (Mentions(name, "cava") || Mentions(name, "vein"))
  {
    if Mentions(name, "ventricle") then "Ventricle"
    else if Mentions(name, "atrium") then "Atrium"
    else if Mentions(name, "aorta") then "Artery"
    else if Mentions(name, "artery") then "Artery"
    else if Mentions(name, "cava") then "Vein"
    else if Mentions(name, "vein") then "Vein"
    else "Other"
  }

  /** The detected type ignores case: a name and its lower-cased form get the same type. */
  lemma DetectTypeIgnoresCase(name: string)
    ensures DetectType(Lower(name)) == DetectType(name)
  {
    LowerIdempotent(name);
  }

  /** `Lower(s)` of a capitalised word is the word with its first letter lowered. */
  lemma CapitalLower(s: string, l: string)
    requires |s| == |l| > 0 && 'A' <= s[0] <= 'Z' && l[0] == LowerChar(s[0])
    requires forall i :: 1 <= i < |s| ==> 'a' <= s[i] <= 'z' && l[i] == s[i]
    ensures Lower(s) == l
  {
  }

  /** The `heart_colors` table, in declaration order. */
  const ColorKeys: seq<string> := ["Ventricle", "Atrium", "Artery", "Aorta", "Vein", "Cava", "Default"]

  const VentricleColor := Color(0.88, 0.3, 0.23)
  const AtriumColor := Color(0.91, 0.42, 0.23)
  const ArteryColor := Color(0.78, 0.16, 0.16)
  const VeinColor := Color(0.08, 0.39, 0.75)
  const DefaultColor := Color(0.8, 0.8, 0.8)

  const ColorValues: seq<Color> :=
    [VentricleColor, AtriumColor, ArteryColor, ArteryColor, VeinColor, VeinColor, DefaultColor]

  /** `get_color_for_name`: the colour of the first key occurring in the name, else Default. */
  function ColorForName(name: string): (c: Color)
    ensures FirstMatch(ColorKeys, name).Some? ==> c == ColorValues[FirstMatch(ColorKeys, name).value]
    ensures FirstMatch(ColorKeys, name).None? ==> c == DefaultColor
  {
    match FirstMatch(ColorKeys, name)
    case Some(i) => ColorValues[i]
    case None => DefaultColor
  }

  /** The colour each detected type is drawn with. */
  function TypeColor(t: string): Color {
    if t == "Ventricle" then VentricleColor
    else if t == "Atrium" then AtriumColor
    else if t == "Artery" then ArteryColor
    else if t == "Vein" then VeinColor
    else DefaultColor
  }

  /**
   * The two classifiers agree: whatever type `detect_type` gives a name,
   * `get_color_for_name` paints it with that type's colour, although the two
   * scan their keys in different orders.
   */
  lemma ColorAgreesWithType(name: string)
    ensures ColorForName(name) == TypeColor(DetectType(name))
  {
    var t := DetectType(name);
    if t == "Ventricle" {
      ColorOfVentricle(name);
    } else if t == "Atrium" {
      ColorOfAtrium(name);
    } else if t == "Artery" {
      ColorOfArtery(name);
    } else if t == "Vein" {
      ColorOfVein(name);
    } else {
      ColorOfOther(name);
    }
  }

  lemma ColorOfVentricle(name: string)
    requires Mentions(name, "ventricle")
    ensures ColorForName(name) == VentricleColor
  {
    KeyMeans(name, 0, "ventricle");
    FirstMatchIs(ColorKeys, name, 0);
  }

  lemma ColorOfAtrium(name: string)
    requires !Mentions(name, "ventricle") && Mentions(name, "atrium")
    ensures ColorForName(name) == AtriumColor
  {
    NoneBefore(name, 1);
    KeyMeans(name, 1, "atrium");
    FirstMatchIs(ColorKeys, name, 1);
  }

  lemma ColorOfArtery(name: string)
    requires !Mentions(name, "ventricle") && !Mentions(name, "atrium")
    requires Mentions(name, "artery") || Mentions(name, "aorta")
    ensures ColorForName(name) == ArteryColor
  {
    NoneBefore(name, 2);
    if Mentions(name, "artery") {
      KeyMeans(name, 2, "artery");
      FirstMatchIs(ColorKeys, name, 2);
    } else {
      NoneBefore(name, 3);
      KeyMeans(name, 3, "aorta");
      FirstMatchIs(ColorKeys, name, 3);
    }
  }

  lemma ColorOfVein(name: string)
    requires !Mentions(name, "ventricle") && !Mentions(name, "atrium")
    requires !Mentions(name, "artery") && !Mentions(name, "aorta")
    requires Mentions(name, "vein") || Mentions(name, "cava")
    ensures ColorForName(name) == VeinColor
  {
    NoneBefore(name, 4);
    if Mentions(name, "vein") {
      KeyMeans(name, 4, "vein");
      FirstMatchIs(ColorKeys, name, 4);
    } else {
      NoneBefore(name, 5);
      KeyMeans(name, 5, "cava");
      FirstMatchIs(ColorKeys, name, 5);
    }
  }

  lemma ColorOfOther(name: string)
    requires !Mentions(name, "ventricle") && !Mentions(name, "atrium")
    requires !Mentions(name, "artery") && !Mentions(name, "aorta")
    requires !Mentions(name, "vein") && !Mentions(name, "cava")
    ensures ColorForName(name) == DefaultColor
  {
    NoneBefore(name, 6);
    var m := FirstMatch(ColorKeys, name);
    if m.Some? {
      assert m.value == 6;
    }
  }

  /** The lower-cased spellings of the first six table keys. */
  const LowerKeys: seq<string> := ["ventricle", "atrium", "artery", "aorta", "vein", "cava"]

  /** No table key before position `i` matches when none of their spellings is mentioned. */
  lemma NoneBefore(name: string, i: nat)
    requires i <= 6
    requires i > 0 ==> !Mentions(name, "ventricle")
    requires i > 1 ==> !Mentions(name, "atrium")
    requires i > 2 ==> !Mentions(name, "artery")
    requires i > 3 ==> !Mentions(name, "aorta")
    requires i > 4 ==> !Mentions(name, "vein")
    requires i > 5 ==> !Mentions(name, "cava")
    ensures forall j :: 0 <= j < i ==> !ContainsIgnoreCase(name, ColorKeys[j])
  {
    forall j | 0 <= j < i ensures !ContainsIgnoreCase(name, ColorKeys[j]) {
      KeyMeans(name, j, LowerKeys[j]);
      assert j == 0 || j == 1 || j == 2 || j == 3 || j == 4 || j == 5;
    }
  }

  /** Matching the table key at `i` means mentioning its lower-cased spelling `l`. */
  lemma KeyMeans(name: string, i: nat, l: string)
    requires i < 6 && l == LowerKeys[i]
    ensures ContainsIgnoreCase(name, ColorKeys[i]) == Mentions(name, l)
  {
    CapitalLower(ColorKeys[i], l);
  }

  // ---- update_animation (cardiovascular_system.py:1803-1884) ----

  predicate IsChamber(system: string) { system == "Atrium" || system == "Ventricle" }

  /** The contraction (or glow) input of a segment: the atrial or the ventricular scale. */
  function ChamberScale(system: string, atria: real, ventricle: real): real {
    if system == "Atrium" then atria else if system == "Ventricle" then ventricle else 0.0
  }

  /** The ambient of a visible segment: glowing chambers while the ECG flag is on, else the original. */
  function GlowAmbient(s: Segment, runEcg: bool, atria: real, ventricle: real, glow: real): (a: real)
    ensures (!runEcg || !IsChamber(s.system)) ==> a == s.originalAmbient
    ensures runEcg && IsChamber(s.system) ==> a == s.originalAmbient + ChamberScale(s.system, atria, ventricle) * glow
  {
    var g := if s.system == "Atrium" then atria * glow
             else if s.system == "Ventricle" then ventricle * glow
             else 0.0;
    if runEcg then s.originalAmbient + g else s.originalAmbient
  }

  /**
   * The user transform of a visible segment: a scaling about the mesh centre
   * for contracting chambers while the heartbeat flag is on, none otherwise
   * (and none when the factor is exactly 1).
   */
  function BeatTransform(s: Segment, runHeart: bool, atria: real, ventricle: real,
                         contraction: real): (t: Option<Affine>)
    ensures (!runHeart || !IsChamber(s.system)) ==> t.None?
    ensures runHeart && IsChamber(s.system) ==>
      var k := 1.0 - ChamberScale(s.system, atria, ventricle) * contraction;
      (k == 1.0 ==> t.None?) &&
      (k != 1.0 ==> t.Some? && Apply(t.value, s.originalCenter) == s.originalCenter &&
                    forall q :: Apply(t.value, q) == Add(s.originalCenter, Scale(k, Sub(q, s.originalCenter))))
  {
    var k := if s.system == "Atrium" then 1.0 - atria * contraction
             else if s.system == "Ventricle" then 1.0 - ventricle * contraction
             else 1.0;
    if runHeart && k != 1.0 then Some(ScaleAbout(s.originalCenter, k)) else None
  }

  /**
   * One segment's frame: visible segments get the glow ambient and the beat
   * transform and nothing else changes; hidden segments are skipped.
   */
  function AnimateSegment(s: Segment, runEcg: bool, runHeart: bool, atria: real, ventricle: real,
                          contraction: real, glow: real): (r: Segment)
    ensures !s.visible ==> r == s
    ensures s.visible ==> r.props.ambient == GlowAmbient(s, runEcg, atria, ventricle, glow)
    ensures s.visible ==> r.transform == BeatTransform(s, runHeart, atria, ventricle, contraction)
    ensures r == s.(props := s.props.(ambient := r.props.ambient), transform := r.transform)
  {
    if !s.visible then s
    else s.(props := s.props.(ambient := GlowAmbient(s, runEcg, atria, ventricle, glow)),
            transform := BeatTransform(s, runHeart, atria, ventricle, contraction))
  }

  /**
   * With the strengths the sliders allow (contraction up to 0.3, glow up to 1)
   * and scales in (0, 1], a chamber never shrinks below 70% and never glows
   * more than 1 above its original ambient.
   */
  lemma AnimationBounds(s: Segment, runEcg: bool, runHeart: bool, atria: real, ventricle: real,
                        contraction: real, glow: real)
    requires s.visible && IsChamber(s.system)
    requires 0.0 < atria <= 1.0 && 0.0 < ventricle <= 1.0
    requires 0.0 <= contraction <= 0.3 && 0.0 <= glow <= 1.0
    ensures s.originalAmbient <= GlowAmbient(s, runEcg, atria, ventricle, glow) <= s.originalAmbient + 1.0
    ensures 0.7 <= 1.0 - ChamberScale(s.system, atria, ventricle) * contraction <= 1.0
  {
    var x := ChamberScale(s.system, atria, ventricle);
    assert 0.0 < x <= 1.0;
    MulBounds(x, contraction, 0.3);
    MulBounds(x, glow, 1.0);
  }

  lemma MulBounds(x: real, y: real, m: real)
    requires 0.0 < x <= 1.0 && 0.0 <= y <= m
    ensures 0.0 <= x * y <= m
  {
    assert x * y <= 1.0 * y by {
      assert (1.0 - x) * y >= 0.0 by { MulNonneg(1.0 - x, y); }
    }
  }

  /** The animation clock: the ECG engine, the frame counter and the two run flags. */
  datatype HeartClock = HeartClock(ecg: Ecg.Conduction, frame: nat, runEcg: bool, runHeart: bool)

  /**
   * `update_animation`: with both flags off nothing happens; otherwise the ECG
   * engine ticks once at the slider's bpm and every segment is animated with
   * the tick's scales.
   */
  function UpdateAnimation(h: HeartClock, sc: Scene, bpm: int, kernel: real -> real, noise: real,
                           contraction: real, glow: real): (r: (HeartClock, Scene))
    requires Ecg.Valid(h.ecg) && bpm > 0 && Ecg.KernelSane(kernel)
    ensures !h.runEcg && !h.runHeart ==> r == (h, sc)
    ensures Ecg.Valid(r.0.ecg) && r.0.runEcg == h.runEcg && r.0.runHeart == h.runHeart
    ensures (h.runEcg || h.runHeart) ==> r.0.frame == h.frame + 1 && r.0.ecg == Ecg.Advance(h.ecg, bpm).state
    ensures r.1.order == sc.order && r.1.segs.Keys == sc.segs.Keys
    ensures (h.runEcg || h.runHeart) ==>
      var out := Ecg.Update(h.ecg, bpm, kernel, noise).1;
      forall n :: n in sc.segs ==>
        r.1.segs[n] == AnimateSegment(sc.segs[n], h.runEcg, h.runHeart,
                                      out.atriaScale, out.ventricleScale, contraction, glow)
  {
    if !h.runEcg && !h.runHeart then (h, sc)
    else
      var u := Ecg.Update(h.ecg, bpm, kernel, noise);
      var out := u.1;
      var segs := map n | n in sc.segs ::
        AnimateSegment(sc.segs[n], h.runEcg, h.runHeart, out.atriaScale, out.ventricleScale, contraction, glow);
      (h.(ecg := u.0, frame := h.frame + 1), sc.(segs := segs))
  }

  /** `reset_animation_meshes`: every segment loses its transform and gets its original ambient. */
  function ResetMeshes(sc: Scene): (r: Scene)
    ensures r.order == sc.order && r.segs.Keys == sc.segs.Keys
    ensures forall n :: n in sc.segs ==>
      r.segs[n].transform.None? && r.segs[n].props.ambient == sc.segs[n].originalAmbient &&
      r.segs[n] == sc.segs[n].(props := r.segs[n].props, transform := None) &&
      r.segs[n].props == sc.segs[n].props.(ambient := sc.segs[n].originalAmbient)
  {
    sc.(segs := map n | n in sc.segs ::
      sc.segs[n].(props := sc.segs[n].props.(ambient := sc.segs[n].originalAmbient), transform := None))
  }

  /**
   * Stopping undoes any number of animation frames: the animation only moves
   * ambient and transform, and the reset puts both back.
   */
  lemma ResetUndoesAnimation(h: HeartClock, sc: Scene, bpm: int, kernel: real -> real, noise: real,
                             contraction: real, glow: real)
    requires Ecg.Valid(h.ecg) && bpm > 0 && Ecg.KernelSane(kernel)
    ensures ResetMeshes(UpdateAnimation(h, sc, bpm, kernel, noise, contraction, glow).1) == ResetMeshes(sc)
  {
    var r := UpdateAnimation(h, sc, bpm, kernel, noise, contraction, glow).1;
    assert r.segs.Keys == sc.segs.Keys;
    forall n | n in sc.segs
      ensures ResetMeshes(r).segs[n] == ResetMeshes(sc).segs[n]
    {
      assert r.segs[n] == sc.segs[n].(props := sc.segs[n].props.(ambient := r.segs[n].props.ambient),
                                       transform := r.segs[n].transform);
    }
  }

  // ---- set_type_opacity (cardiovascular_system.py:1908-1923) ----

  /** The lower-cased keys a type's opacity slider searches for. */
  function SearchKeys(typeName: string): (keys: seq<string>)
    ensures |keys| >= 1 && keys[0] == Lower(typeName)
    ensures typeName == "Artery" ==> keys == [Lower(typeName), "aorta"]
    ensures typeName == "Vein" ==> keys == [Lower(typeName), "cava"]
  {
    [Lower(typeName)] + (if typeName == "Artery" then ["aorta"] else if typeName == "Vein" then ["cava"] else [])
  }

  /** Some search key occurs in the lower-cased name. */
  predicate MatchesType(name: string, typeName: string) {
    var keys := SearchKeys(typeName);
    exists j | 0 <= j < |keys| :: Contains(Lower(name), keys[j])
  }

  /**
   * `set_type_opacity`: every segment whose name mentions one of the type's
   * search keys gets the opacity; all other segments are untouched.
   */
  function SetTypeOpacity(sc: Scene, typeName: string, opacity: real): (r: Scene)
    ensures r.order == sc.order && r.segs.Keys == sc.segs.Keys
    ensures forall n :: n in sc.segs && MatchesType(n, typeName) ==>
      r.segs[n] == sc.segs[n].(opacity := opacity, props := sc.segs[n].props.(opacity := opacity))
    ensures forall n :: n in sc.segs && !MatchesType(n, typeName) ==> r.segs[n] == sc.segs[n]
  {
    sc.(segs := map n | n in sc.segs ::
      if MatchesType(n, typeName)
      then sc.segs[n].(opacity := opacity, props := sc.segs[n].props.(opacity := opacity))
      else sc.segs[n])
  }

  /** Setting a type's opacity twice is setting it once, with the later value. */
  lemma SetTypeOpacityOverrides(sc: Scene, typeName: string, a: real, b: real)
    ensures SetTypeOpacity(SetTypeOpacity(sc, typeName, a), typeName, b) == SetTypeOpacity(sc, typeName, b)
  {
    var l := SetTypeOpacity(SetTypeOpacity(sc, typeName, a), typeName, b);
    var r := SetTypeOpacity(sc, typeName, b);
    assert l.segs.Keys == r.segs.Keys;
    forall n | n in l.segs ensures l.segs[n] == r.segs[n] {
    }
  }

  /** Artery names match the Artery slider, whether they say "artery" or "aorta". */
  lemma ArteryNamesMatch(name: string)
    requires Mentions(name, "aorta") || Mentions(name, "artery")
    ensures MatchesType(name, "Artery")
  {
    CapitalLower("Artery", "artery");
    var keys := SearchKeys("Artery");
    assert keys == ["artery", "aorta"];
    if Mentions(name, "artery") {
      assert Contains(Lower(name), keys[0]);
    } else {
      assert Contains(Lower(name), keys[1]);
    }
  }
}
