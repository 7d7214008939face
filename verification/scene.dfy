/**
 * The per-segment visual state shared by every animator: the segment registry
 * (`SegmentManager.segments`, a name-keyed dict kept in insertion order) and the
 * rendering properties of each segment's actor.
 */
module Scene {
  import opened Geometry
  import opened Wrappers

  /** The four viewers: heart, dental, musculoskeletal and brain. */
  datatype Viewer = Cardio | Dental | Musculo | Nervous

  /**
   * Where a handler's code and its evident intent part ways, which of the
   * two a composite member follows: the code as written, or the correction.
   */
  datatype Variant = AsWritten | Corrected

  datatype Color = Color(r: real, g: real, b: real)

  /** The actor's `vtkProperty` as the animators read and write it. */
  datatype Props = Props(color: Color, ambient: real, diffuse: real, specular: real,
                         specularPower: real, opacity: real)

  /** A clip plane; a mapper keeps the half-space its normal points into. */
  datatype Plane = Plane(origin: Vec3, normal: Vec3)

  /** What a segment's mapper clips with: nothing, a fixed plane set, or the shared flight plane. */
  datatype Clip = NoClip | Planes(planes: seq<Plane>) | FlightPlane

  /**
   * One registry entry. `props`, `transform` and `clip` are the actor's and
   * mapper's live state; `opacity`, `color`, `originalColor`, `originalAmbient`,
   * `originalCenter`, `visible` and `system` are the dict fields the viewers keep
   * beside it; `dataBounds` and `points` describe the untransformed mesh and
   * `actorBounds` the actor's world bounds.
   */
  datatype Segment = Segment(
    props: Props,
    transform: Option<Affine>,
    clip: Clip,
    opacity: real,
    color: Color,
    originalColor: Color,
    originalAmbient: real,
    originalCenter: Vec3,
    visible: bool,
    system: string,
    dataBounds: Box,
    actorBounds: Box,
    points: seq<Vec3>)

  /** The registry: names in insertion order and the entries by name. */
  datatype Scene = Scene(order: seq<string>, segs: map<string, Segment>)

  ghost predicate WellFormed(sc: Scene) {
    && (forall i :: 0 <= i < |sc.order| ==> sc.order[i] in sc.segs)
    && (forall n :: n in sc.segs ==> n in sc.order)
    && (forall i, j :: 0 <= i < j < |sc.order| ==> sc.order[i] != sc.order[j])
  }

  /** `a * (1 - k) + b * k` per channel: the colour blend every signal animator uses. */
  function Mix(a: Color, b: Color, k: real): Color {
    Color(a.r * (1.0 - k) + b.r * k, a.g * (1.0 - k) + b.g * k, a.b * (1.0 - k) + b.b * k)
  }

  predicate Between(x: real, a: real, b: real) {
    (a <= x <= b) || (b <= x <= a)
  }

  predicate ColorBetween(c: Color, a: Color, b: Color) {
    Between(c.r, a.r, b.r) && Between(c.g, a.g, b.g) && Between(c.b, a.b, b.b)
  }

  lemma MixBetween(a: Color, b: Color, k: real)
    requires 0.0 <= k <= 1.0
    ensures ColorBetween(Mix(a, b, k), a, b)
    ensures k == 0.0 ==> Mix(a, b, k) == a
  {
    MixChannel(a.r, b.r, k);
    MixChannel(a.g, b.g, k);
    MixChannel(a.b, b.b, k);
  }

  lemma MixChannel(x: real, y: real, k: real)
    requires 0.0 <= k <= 1.0
    ensures Between(x * (1.0 - k) + y * k, x, y)
  {
    assert x * (1.0 - k) + y * k == x + k * (y - x);
    var d := y - x;
    if x <= y {
      MulNonneg(k, d);
      MulNonneg(1.0 - k, d);
      assert k * d + (1.0 - k) * d == d;
    } else {
      MulNonneg(k, -d);
      MulNonneg(1.0 - k, -d);
      assert k * (-d) + (1.0 - k) * (-d) == -d;
    }
  }

  lemma MulNonneg(a: real, b: real)
    requires 0.0 <= a && 0.0 <= b
    ensures 0.0 <= a * b
  {
  }

  function WithProps(s: Segment, p: Props): Segment { s.(props := p) }

  // ---- SegmentManager (cardiovascular_system.py:164-225) ----

  /**
   * `add_segment`: stores the entry (replacing one of the same name, which keeps
   * its place in the order), remembers the actor's current ambient and the mesh
   * centre, and paints the actor with the given colour and opacity.
   */
  function AddSegment(sc: Scene, name: string, actor: Segment, system: string,
                      color: Color, opacity: real): (r: Scene)
    requires WellFormed(sc)
    ensures WellFormed(r)
    ensures r.segs.Keys == sc.segs.Keys + {name}
    ensures forall n :: n in sc.segs && n != name ==> r.segs[n] == sc.segs[n]
    ensures r.segs[name].props.color == color && r.segs[name].props.opacity == opacity
    ensures r.segs[name].opacity == opacity && r.segs[name].visible
    ensures r.segs[name].originalAmbient == actor.props.ambient
    ensures r.segs[name].originalCenter == Center(actor.dataBounds)
    ensures name in sc.segs ==> r.order == sc.order
    ensures name !in sc.segs ==> r.order == sc.order + [name]
  {
    var seg := actor.(opacity := opacity, color := color, visible := true, system := system,
                      originalCenter := Center(actor.dataBounds),
                      originalAmbient := actor.props.ambient,
                      props := actor.props.(color := color, opacity := opacity));
    Scene(if name in sc.segs then sc.order else sc.order + [name], sc.segs[name := seg])
  }

  /** `set_opacity`: the dict field and the actor property together; unknown names are ignored. */
  function SetOpacity(sc: Scene, name: string, o: real): (r: Scene)
    ensures r.order == sc.order && r.segs.Keys == sc.segs.Keys
    ensures forall n :: n in sc.segs && n != name ==> r.segs[n] == sc.segs[n]
    ensures name in sc.segs ==>
      r.segs[name] == sc.segs[name].(opacity := o, props := sc.segs[name].props.(opacity := o))
  {
    if name in sc.segs then
      var s := sc.segs[name];
      sc.(segs := sc.segs[name := s.(opacity := o, props := s.props.(opacity := o))])
    else sc
  }

  /** `set_visibility`. */
  function SetVisibility(sc: Scene, name: string, v: bool): (r: Scene)
    ensures r.order == sc.order && r.segs.Keys == sc.segs.Keys
    ensures forall n :: n in sc.segs && n != name ==> r.segs[n] == sc.segs[n]
    ensures name in sc.segs ==> r.segs[name] == sc.segs[name].(visible := v)
  {
    if name in sc.segs then sc.(segs := sc.segs[name := sc.segs[name].(visible := v)]) else sc
  }

  /** `set_color`. */
  function SetColor(sc: Scene, name: string, c: Color): (r: Scene)
    ensures r.order == sc.order && r.segs.Keys == sc.segs.Keys
    ensures forall n :: n in sc.segs && n != name ==> r.segs[n] == sc.segs[n]
    ensures name in sc.segs ==>
      r.segs[name] == sc.segs[name].(color := c, props := sc.segs[name].props.(color := c))
  {
    if name in sc.segs then
      var s := sc.segs[name];
      sc.(segs := sc.segs[name := s.(color := c, props := s.props.(color := c))])
    else sc
  }

  /** Every segment's mapper gets the same clip (`SetClippingPlanes` on each mapper). */
  function SetClipAll(sc: Scene, c: Clip): (r: Scene)
    ensures r.order == sc.order && r.segs.Keys == sc.segs.Keys
    ensures forall n :: n in sc.segs ==> r.segs[n] == sc.segs[n].(clip := c)
  {
    sc.(segs := map n | n in sc.segs :: sc.segs[n].(clip := c))
  }

  /** `get_segments_by_type`: the names whose system matches, in registry order. */
  function SegmentsOfSystem(sc: Scene, names: seq<string>, system: string): (r: seq<string>)
    requires forall i :: 0 <= i < |names| ==> names[i] in sc.segs
    ensures forall n :: n in r <==> n in names && sc.segs[n].system == system
  {
    if names == [] then []
    else
      var rest := SegmentsOfSystem(sc, names[1..], system);
      assert forall n :: n in names <==> n == names[0] || n in names[1..];
      if sc.segs[names[0]].system == system then [names[0]] + rest else rest
  }
}
