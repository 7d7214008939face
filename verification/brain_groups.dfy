/**
 * The brain viewer's grouping of segments: when a mesh is loaded its name
 * picks a group and a colour from the ordered `color_groups` table (the
 * first group with a keyword in the name wins), and a group slider sets the
 * opacity of every segment filed under that group.
 */
module BrainGroups {
  import opened Wrappers
  import opened Text
  import opened Scene

  /** One `color_groups` entry. */
  datatype Group = Group(name: string, color: Color, keywords: seq<string>)

  /** `color_groups` in declaration order (nervous_system.py:814-825). */
  const ColorGroups: seq<Group> := [
    Group("Ventricles", Color(0.0, 0.8, 1.0), ["ventricle"]),
    Group("Colliculi", Color(0.1, 1.0, 0.2), ["colliculus"]),
    Group("White Matter Tracts", Color(1.0, 0.9, 0.1), ["brachium", "callosum", "corpus callosum", "fasciculus", "capsule"]),
    Group("Limbic Structures", Color(1.0, 0.2, 0.8), ["mammillary", "hippocampus", "amygdala", "fornix"]),
    Group("Cortex", Color(0.7, 0.6, 0.7), ["hemisphere", "frontal", "parietal", "temporal", "occipital", "gyrus", "cortex"]),
    Group("Cerebellum", Color(0.8, 0.7, 0.5), ["cerebellum", "cerebellar"]),
    Group("Brainstem", Color(0.8, 0.5, 0.5), ["brainstem", "pons", "medulla", "midbrain"]),
    Group("Deep Grey Matter", Color(1.0, 0.7, 0.4), ["thalamus", "putamen", "caudate", "pallidus", "basal ganglia"]),
    Group("Other", Color(0.7, 0.7, 0.7), [])
  ]

  /** The group a segment falls back to, and its colour. */
  const DefaultGroup := "Other"
  const DefaultColor := ColorGroups[8].color

  /** The name as the keywords are matched against it: lower case, underscores read as spaces. */
  function Key(n: string): (k: string)
    ensures |k| == |n| && '_' !in k
  {
    ReplaceChar(Lower(n), '_', ' ')
  }

  /** Some keyword of `g` occurs in `key`. */
  predicate Matches(g: Group, key: string) {
    exists j :: 0 <= j < |g.keywords| && Contains(key, g.keywords[j])
  }

  /** The first group (in table order) with a keyword in `key`. */
  function FirstGroup(gs: seq<Group>, key: string): (r: Option<nat>)
    ensures r.Some? ==> r.value < |gs| && Matches(gs[r.value], key)
    ensures r.Some? ==> forall j :: 0 <= j < r.value ==> !Matches(gs[j], key)
    ensures r.None? <==> forall j :: 0 <= j < |gs| ==> !Matches(gs[j], key)
  {
    if gs == [] then None
    else if Matches(gs[0], key) then Some(0)
    else
      match FirstGroup(gs[1..], key)
      case None => None
      case Some(k) => Some(k + 1)
  }

  /** `get_segment_info`: the first matching group and its colour, else the default group. */
  function SegmentInfo(n: string): (string, Color) {
    match FirstGroup(ColorGroups, Key(n))
    case Some(i) => (ColorGroups[i].name, ColorGroups[i].color)
    case None => (DefaultGroup, DefaultColor)
  }

  /** A group whose keyword occurs in the name, with no earlier group matching, is the one chosen. */
  lemma InfoIsFirstMatch(n: string, i: nat)
    requires i < |ColorGroups| && Matches(ColorGroups[i], Key(n))
    requires forall j :: 0 <= j < i ==> !Matches(ColorGroups[j], Key(n))
    ensures SegmentInfo(n) == (ColorGroups[i].name, ColorGroups[i].color)
  {
    var r := FirstGroup(ColorGroups, Key(n));
    assert r.Some?;
  }

  /** A name falls in the default group exactly when no group's keyword occurs in it. */
  lemma InfoIsDefault(n: string)
    ensures SegmentInfo(n).0 == DefaultGroup <==> forall j :: 0 <= j < |ColorGroups| ==> !Matches(ColorGroups[j], Key(n))
  {
    var r := FirstGroup(ColorGroups, Key(n));
    if r.Some? {
      assert !Matches(ColorGroups[8], Key(n));
      assert r.value != 8;
    }
  }

  /**
   * Table order decides between groups: any name mentioning a ventricle is
   * filed under the ventricles, whatever lobe (a cortex keyword) it also
   * names, because the ventricles come first.
   */
  lemma VentricleBeforeCortex(n: string)
    requires Contains(Key(n), "ventricle")
    ensures SegmentInfo(n) == ("Ventricles", Color(0.0, 0.8, 1.0))
  {
    assert ColorGroups[0].keywords[0] == "ventricle";
    assert Matches(ColorGroups[0], Key(n));
    InfoIsFirstMatch(n, 0);
  }

  // ---- load_segment (nervous_system.py:1751-1772) and add_segment (nervous_system.py:44-58) ----

  /**
   * Register a freshly read mesh: Phong lighting with specular 0.5, power 30,
   * ambient 0.2 and diffuse 0.8; group and colour from the name; opacity 1.
   * A name loaded twice replaces the entry in place.
   */
  function Load(sc: Scene, name: string, mesh: Segment): (r: Scene)
    requires WellFormed(sc)
    ensures WellFormed(r)
    ensures r.segs.Keys == sc.segs.Keys + {name}
    ensures forall n :: n in sc.segs && n != name ==> r.segs[n] == sc.segs[n]
    ensures r.segs[name].system == SegmentInfo(name).0
    ensures r.segs[name].props.color == SegmentInfo(name).1 && r.segs[name].originalColor == SegmentInfo(name).1
    ensures r.segs[name].opacity == 1.0 && r.segs[name].visible
  {
    var info := SegmentInfo(name);
    Register(sc, name, Loaded(mesh, info.0, info.1))
  }

  /** The entry `add_segment` stores for a mesh read and lit by `load_segment`. */
  function Loaded(mesh: Segment, g: string, c: Color): (s: Segment)
    ensures s.system == g && s.props.color == c && s.originalColor == c && s.opacity == 1.0 && s.visible
  {
    mesh.(props := Props(c, 0.2, 0.8, 0.5, 30.0, mesh.props.opacity),
          opacity := 1.0, color := c, originalColor := c, visible := true, system := g)
  }

  /** `segments[name] = entry`: a new name goes to the end of the order, a known one keeps its place. */
  function Register(sc: Scene, name: string, s: Segment): (r: Scene)
    requires WellFormed(sc)
    ensures WellFormed(r)
    ensures r.segs == sc.segs[name := s]
  {
    Scene(if name in sc.segs then sc.order else sc.order + [name], sc.segs[name := s])
  }

  // ---- update_group_opacity (nervous_system.py:1938-1947) ----

  /** Every segment of the group gets opacity `value / 100` (dict field and actor); the rest are untouched. */
  function GroupOpacity(sc: Scene, group: string, value: int): (r: Scene)
    ensures r.order == sc.order && r.segs.Keys == sc.segs.Keys
    ensures forall n :: n in sc.segs && sc.segs[n].system != group ==> r.segs[n] == sc.segs[n]
    ensures forall n :: n in sc.segs && sc.segs[n].system == group ==>
      r.segs[n] == sc.segs[n].(opacity := value as real / 100.0,
                               props := sc.segs[n].props.(opacity := value as real / 100.0))
  {
    var o := value as real / 100.0;
    sc.(segs := map n | n in sc.segs ::
      if sc.segs[n].system == group then sc.segs[n].(opacity := o, props := sc.segs[n].props.(opacity := o))
      else sc.segs[n])
  }

  /** The group slider is `set_opacity` on each member of the group, one after another. */
  lemma GroupOpacityIsSetOpacity(sc: Scene, group: string, value: int, n: string)
    requires n in sc.segs && sc.segs[n].system == group
    ensures GroupOpacity(sc, group, value).segs[n] == SetOpacity(sc, n, value as real / 100.0).segs[n]
  {
  }

  /** A segment the group slider moves reaches the slider's opacity; moving another group's slider leaves it alone. */
  lemma LoadedFollowsItsGroup(sc: Scene, name: string, mesh: Segment, value: int, other: string)
    requires WellFormed(sc) && other != SegmentInfo(name).0
    ensures var l := Load(sc, name, mesh);
      && GroupOpacity(l, SegmentInfo(name).0, value).segs[name].opacity == value as real / 100.0
      && GroupOpacity(l, other, value).segs[name] == l.segs[name]
  {
  }

  /** Moving one group's slider twice to the same value is moving it once. */
  lemma GroupOpacityIdempotent(sc: Scene, group: string, value: int)
    ensures GroupOpacity(GroupOpacity(sc, group, value), group, value) == GroupOpacity(sc, group, value)
  {
    var once := GroupOpacity(sc, group, value);
    assert GroupOpacity(once, group, value).segs == once.segs;
  }

  /** Sliders of two different groups commute: each touches only its own segments. */
  lemma GroupOpacityCommutes(sc: Scene, g1: string, v1: int, g2: string, v2: int)
    requires g1 != g2
    ensures GroupOpacity(GroupOpacity(sc, g1, v1), g2, v2) == GroupOpacity(GroupOpacity(sc, g2, v2), g1, v1)
  {
    var a := GroupOpacity(GroupOpacity(sc, g1, v1), g2, v2);
    var b := GroupOpacity(GroupOpacity(sc, g2, v2), g1, v1);
    assert a.segs == b.segs;
  }
}
