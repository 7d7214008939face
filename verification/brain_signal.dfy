/**
 * The brain viewer's `SurfaceNeuralSignalAnimator`: a pathway is a list of
 * cortical regions that light up one after another on the surface meshes,
 * each for a number of frames, with a cross-fade of `transition` frames
 * between neighbours. A 33 ms timer calls the update, which works out the
 * current region, the next one and the blend from an integer frame counter,
 * paints every segment by its distance to the regions and advances the
 * counter by the speed.
 *
 * Trigonometry, the vector norm and the power `x ** 1.5` arrive as
 * parameters.
 */
module BrainSignal {
  import opened Wrappers
  import opened Geometry
  import opened Scene

  // ---- define_surface_pathways (nervous_system.py:502-547) ----

  /** A region in brain-normalised coordinates (the brain box maps to [-1, 1]^3). */
  datatype Region = Region(center: Vec3, radius: real, duration: nat)

  datatype Pathway = Pathway(title: string, color: Color, regions: seq<Region>, transition: nat)

  const Pain := Pathway("Pain Pathway", Color(1.0, 0.2, 0.0),
    [Region(Vec3(0.0, -0.4, 0.0), 0.4, 40), Region(Vec3(0.3, 0.3, 0.5), 0.45, 50),
     Region(Vec3(-0.3, 0.3, 0.5), 0.45, 50)], 15)

  const Vision := Pathway("Vision Pathway", Color(0.0, 0.5, 1.0),
    [Region(Vec3(0.0, -0.9, 0.0), 0.5, 45), Region(Vec3(-0.5, 0.0, 0.0), 0.5, 50),
     Region(Vec3(0.0, 0.5, 0.5), 0.55, 55)], 20)

  const Thinking := Pathway("Cognitive Processing", Color(1.0, 0.9, 0.0),
    [Region(Vec3(-0.5, 0.5, 0.3), 0.5, 50), Region(Vec3(0.5, 0.5, 0.3), 0.5, 50),
     Region(Vec3(0.0, 0.5, 0.6), 0.5, 60)], 18)

  /** The process types the buttons start, keyed as `signal_pathways` is. */
  const Pathways: map<string, Pathway> := map["pain" := Pain, "vision" := Vision, "thinking" := Thinking]

  /** The sum of the regions' dwell times. */
  function SumDurations(rs: seq<Region>): nat {
    if rs == [] then 0 else SumDurations(rs[..|rs| - 1]) + rs[|rs| - 1].duration
  }

  /** `total_duration`: every dwell plus one transition per region (the last one trailing). */
  function Total(p: Pathway): nat {
    SumDurations(p.regions) + |p.regions| * p.transition
  }

  /** What the update relies on: some region, positive radii and a positive cycle length. */
  predicate ValidPathway(p: Pathway) {
    && |p.regions| > 0
    && Total(p) > 0
    && (forall i :: 0 <= i < |p.regions| ==> p.regions[i].radius > 0.0)
  }

  lemma PathwaysValid()
    ensures forall k :: k in Pathways ==> ValidPathway(Pathways[k])
  {
    assert Total(Pain) >= 3 * 15;
    assert Total(Vision) >= 3 * 20;
    assert Total(Thinking) >= 3 * 18;
  }

  // ---- the region scan (nervous_system.py:622-647) ----

  /** The first frame of region `i`: the dwells and transitions of the regions before it. */
  function Start(rs: seq<Region>, tf: nat, i: nat): nat
    requires i <= |rs|
  {
    if i == 0 then 0 else Start(rs, tf, i - 1) + rs[i - 1].duration + tf
  }

  /** The cycle ends where a region after the last one would start. */
  lemma {:induction false} TotalIsStart(rs: seq<Region>, tf: nat)
    ensures SumDurations(rs) + |rs| * tf == Start(rs, tf, |rs|)
  {
    if rs != [] {
      var init := rs[..|rs| - 1];
      TotalIsStart(init, tf);
      StartPrefix(rs, tf, |rs| - 1);
    }
  }

  /** `Start` only looks at the regions before `i`. */
  lemma {:induction false} StartPrefix(rs: seq<Region>, tf: nat, i: nat)
    requires i <= |rs|
    ensures Start(rs[..i], tf, i) == Start(rs, tf, i)
    decreases i
  {
    if i > 0 {
      StartPrefix(rs, tf, i - 1);
      StartPrefix(rs[..i], tf, i - 1);
      assert rs[..i][..i - 1] == rs[..i - 1];
    }
  }

  lemma {:induction false} StartMono(rs: seq<Region>, tf: nat, i: nat, j: nat)
    requires i <= j <= |rs|
    ensures Start(rs, tf, i) <= Start(rs, tf, j)
    decreases j
  {
    if i < j {
      StartMono(rs, tf, i, j - 1);
    }
  }

  /** Where the scan stops: the region shown, the one faded in, and how far the fade is. */
  datatype Stage = Stage(current: nat, next: nat, blend: real)

  /** The `for idx, region in enumerate(regions)` loop from region `i`, which starts at frame `start`. */
  function Scan(rs: seq<Region>, tf: nat, frame: int, i: nat, start: int): (st: Stage)
    requires i <= |rs|
    ensures |rs| > 0 ==> st.current < |rs| && st.next < |rs|
    ensures st.next == st.current || st.next == st.current + 1
    ensures st.next == st.current ==> st.blend == 0.0
    ensures 0.0 <= st.blend < 1.0
    decreases |rs| - i
  {
    if i == |rs| then Stage(0, 0, 0.0)
    else
      var regionEnd := start + rs[i].duration;
      if frame < regionEnd then Stage(i, i, 0.0)
      else if i < |rs| - 1 && frame < regionEnd + tf then
        Stage(i, i + 1, (frame - regionEnd) as real / tf as real)
      else Scan(rs, tf, frame, i + 1, regionEnd + tf)
  }

  function Locate(rs: seq<Region>, tf: nat, frame: int): Stage {
    Scan(rs, tf, frame, 0, 0)
  }

  /** Frames at or past the start of region `i` pass over every earlier region. */
  lemma {:induction false} ScanSkips(rs: seq<Region>, tf: nat, frame: int, k: nat, i: nat)
    requires k <= i <= |rs| && frame >= Start(rs, tf, i)
    ensures Scan(rs, tf, frame, k, Start(rs, tf, k)) == Scan(rs, tf, frame, i, Start(rs, tf, i))
    decreases i - k
  {
    if k < i {
      StartMono(rs, tf, k + 1, i);
      ScanSkips(rs, tf, frame, k + 1, i);
    }
  }

  /** During region `i`'s dwell, region `i` alone is shown. */
  lemma Dwell(rs: seq<Region>, tf: nat, frame: int, i: nat)
    requires i < |rs|
    requires Start(rs, tf, i) <= frame < Start(rs, tf, i) + rs[i].duration
    ensures Locate(rs, tf, frame) == Stage(i, i, 0.0)
  {
    ScanSkips(rs, tf, frame, 0, i);
  }

  /** Between region `i` and its successor, the blend grows linearly from 0 over the transition. */
  lemma Crossing(rs: seq<Region>, tf: nat, frame: int, i: nat)
    requires i + 1 < |rs|
    requires Start(rs, tf, i) + rs[i].duration <= frame < Start(rs, tf, i + 1)
    ensures Locate(rs, tf, frame) ==
      Stage(i, i + 1, (frame - Start(rs, tf, i) - rs[i].duration) as real / tf as real)
  {
    ScanSkips(rs, tf, frame, 0, i);
  }

  /**
   * The transition window after the last region matches neither branch, so
   * the loop runs out and region 0 is shown at full strength: the cycle
   * does not fade from the last region back to the first.
   */
  lemma Trailing(rs: seq<Region>, tf: nat, frame: int)
    requires |rs| > 0
    requires frame >= Start(rs, tf, |rs| - 1) + rs[|rs| - 1].duration
    ensures Locate(rs, tf, frame) == Stage(0, 0, 0.0)
  {
    ScanSkips(rs, tf, frame, 0, |rs| - 1);
  }

  // ---- per-segment strength (nervous_system.py:649-677) ----

  /**
   * The two pieces of floating-point maths the update uses: the vector norm
   * (`np.linalg.norm`) and the power `x ** 1.5`. `MathsSane` is all the
   * model assumes of them: the norm is non-negative and zero at the origin,
   * and on [0, 1] the power lies between `x * x` and `x`.
   */
  datatype Maths = Maths(norm: Vec3 -> real, pow15: real -> real)

  ghost predicate MathsSane(mx: Maths) {
    && mx.norm(Zero) == 0.0
    && (forall v :: 0.0 <= mx.norm(v))
    && (forall x :: 0.0 <= x <= 1.0 ==> x * x <= mx.pow15(x) <= x)
  }

  /** `np.linalg.norm(a - b)`. */
  function Dist(a: Vec3, b: Vec3, mx: Maths): (d: real)
    ensures MathsSane(mx) ==> 0.0 <= d
    ensures MathsSane(mx) && a == b ==> d == 0.0
  {
    assert a == b ==> Sub(a, b) == Zero;
    mx.norm(Sub(a, b))
  }

  /** `max(0, 1 - d / r)`: full at the centre, falling to nothing at the radius. */
  function Influence(d: real, radius: real): (i: real)
    requires radius > 0.0
    ensures 0.0 <= i
    ensures 0.0 <= d ==> i <= 1.0
    ensures i == 0.0 <==> d >= radius
  {
    if 1.0 - d / radius > 0.0 then 1.0 - d / radius else 0.0
  }

  /** `0.85 + 0.15 sin(frame * 0.5 * speed)`. */
  function Pulse(tr: Trig, frame: int, speed: real): (p: real)
    ensures TrigSane(tr) ==> 0.7 <= p <= 1.0
  {
    0.85 + 0.15 * tr.sin(frame as real * 0.5 * speed)
  }

  /** The influence of region `k` on a segment at normalised position `pos`. */
  function RegionInfluence(p: Pathway, k: nat, pos: Vec3, mx: Maths): real
    requires ValidPathway(p) && k < |p.regions|
  {
    Influence(Dist(pos, p.regions[k].center, mx), p.regions[k].radius)
  }

  /** The current region's influence, cross-faded with the next one's while a transition runs. */
  function Mixed(p: Pathway, st: Stage, pos: Vec3, mx: Maths): real
    requires ValidPathway(p) && st.current < |p.regions| && st.next < |p.regions|
  {
    var ic := RegionInfluence(p, st.current, pos, mx);
    var inext := if st.blend > 0.0 && st.next != st.current then RegionInfluence(p, st.next, pos, mx) else 0.0;
    if st.next == st.current then ic else (1.0 - st.blend) * ic + st.blend * inext
  }

  /** `total_influence`: the cross-faded influence scaled by the pulse and raised to the power 1.5. */
  function Strength(p: Pathway, st: Stage, pos: Vec3, pulse: real, mx: Maths): real
    requires ValidPathway(p) && st.current < |p.regions| && st.next < |p.regions|
  {
    mx.pow15(Mixed(p, st, pos, mx) * pulse)
  }

  lemma MixedRange(p: Pathway, st: Stage, pos: Vec3, mx: Maths)
    requires ValidPathway(p) && st.current < |p.regions| && st.next < |p.regions|
    requires 0.0 <= st.blend < 1.0 && MathsSane(mx)
    ensures 0.0 <= Mixed(p, st, pos, mx) <= 1.0
  {
    var ic := RegionInfluence(p, st.current, pos, mx);
    var inext := if st.blend > 0.0 && st.next != st.current then RegionInfluence(p, st.next, pos, mx) else 0.0;
    if st.next != st.current {
      Convex(ic, inext, st.blend);
    }
  }

  /** The strength stays in [0, 1] for any pulse in [0, 1]. */
  lemma StrengthRange(p: Pathway, st: Stage, pos: Vec3, pulse: real, mx: Maths)
    requires ValidPathway(p) && st.current < |p.regions| && st.next < |p.regions|
    requires 0.0 <= st.blend < 1.0 && 0.0 <= pulse <= 1.0 && MathsSane(mx)
    ensures 0.0 <= Strength(p, st, pos, pulse, mx) <= 1.0
  {
    var m := Mixed(p, st, pos, mx);
    MixedRange(p, st, pos, mx);
    UnitProduct(m, pulse);

  }

  lemma Convex(x: real, y: real, k: real)
    requires 0.0 <= x <= 1.0 && 0.0 <= y <= 1.0 && 0.0 <= k <= 1.0
    ensures 0.0 <= (1.0 - k) * x + k * y <= 1.0
  {
    UnitProduct(1.0 - k, x);
    UnitProduct(k, y);
    assert (1.0 - k) * x <= 1.0 - k by { MulLe(1.0 - k, x, 1.0); }
    assert k * y <= k by { MulLe(k, y, 1.0); }
  }

  lemma MulLe(a: real, x: real, y: real)
    requires 0.0 <= a && x <= y
    ensures a * x <= a * y
  {
  }

  lemma UnitProduct(a: real, b: real)
    requires 0.0 <= a <= 1.0 && 0.0 <= b <= 1.0
    ensures 0.0 <= a * b <= 1.0
  {
    assert a * b <= a * 1.0 by { MulLe(a, b, 1.0); }
  }

  /** A segment outside every region in play gets no glow at all. */
  lemma FarIsDark(p: Pathway, st: Stage, pos: Vec3, pulse: real, mx: Maths)
    requires ValidPathway(p) && st.current < |p.regions| && st.next < |p.regions|
    requires MathsSane(mx)
    requires Dist(pos, p.regions[st.current].center, mx) >= p.regions[st.current].radius
    requires st.next != st.current ==> Dist(pos, p.regions[st.next].center, mx) >= p.regions[st.next].radius
    ensures Strength(p, st, pos, pulse, mx) == 0.0
  {
    assert Mixed(p, st, pos, mx) == 0.0;
    assert 0.0 * pulse == 0.0;
  }

  /** A segment centred on the region being dwelt on glows past the 0.01 threshold. */
  lemma CentreGlows(p: Pathway, st: Stage, pos: Vec3, pulse: real, mx: Maths)
    requires ValidPathway(p) && st.current < |p.regions| && st.next == st.current
    requires MathsSane(mx) && 0.7 <= pulse <= 1.0
    requires pos == p.regions[st.current].center
    ensures Strength(p, st, pos, pulse, mx) > 0.01
  {
    assert Mixed(p, st, pos, mx) == 1.0;
    var x := Mixed(p, st, pos, mx) * pulse;
    assert x == pulse && 0.0 <= x <= 1.0;
    assert x * x <= mx.pow15(x) <= x;
    SquareAtLeast(x);
  }

  lemma SquareAtLeast(x: real)
    requires 0.7 <= x
    ensures 0.49 <= x * x
  {
    MulLe(x, 0.7, x);
    assert 0.49 <= 0.7 * x == x * 0.7;
  }

  // ---- painting one segment (nervous_system.py:651-717) ----

  /** The `initial_properties` entry of a segment. */
  datatype Snap = Snap(specular: real, diffuse: real, specularPower: real, opacity: real, ambient: real)

  function SnapOf(s: Segment): Snap {
    Snap(s.props.specular, s.props.diffuse, s.props.specularPower, s.opacity, s.props.ambient)
  }

  /** The recorded colour, or the light grey the update falls back to. */
  function RecordedColor(colors: map<string, Color>, n: string): Color {
    if n in colors then colors[n] else Color(0.9, 0.9, 0.9)
  }

  function ClampChannel(c: real): (r: real)
    ensures 0.0 <= r <= 1.5
    ensures 0.0 <= c <= 1.5 ==> r == c
  {
    if c < 0.0 then 0.0 else if c > 1.5 then 1.5 else c
  }

  /** The "hot" glow: the recorded colour darkened and the pathway colour boosted fourfold, each channel clamped to [0, 1.5]. */
  function Hot(oc: Color, gc: Color, t: real): Color {
    Color(ClampChannel(oc.r * (1.0 - t * 0.9) + gc.r * t * 4.0),
          ClampChannel(oc.g * (1.0 - t * 0.9) + gc.g * t * 4.0),
          ClampChannel(oc.b * (1.0 - t * 0.9) + gc.b * t * 4.0))
  }

  /**
   * The look of a segment at strength `t`: above 0.01 the glow, with lighting
   * ramped from the snapshot (or fixed defaults) and the opacity raised
   * towards 1; otherwise the snapshot look and the user's opacity.
   */
  function Paint(s: Segment, n: string, colors: map<string, Color>, initial: map<string, Snap>,
                 glow: Color, t: real): (r: Segment)
    ensures r == s.(props := r.props)
    ensures t > 0.01 ==> r.props.opacity == Min(1.0, s.opacity + t * 0.2)
    ensures t <= 0.01 ==> r.props.opacity == s.opacity && r.props.color == RecordedColor(colors, n)
  {
    var oc := RecordedColor(colors, n);
    var snap := if n in initial then Some(initial[n]) else None;
    if t > 0.01 then
      s.(props := s.props.(
        color := Hot(oc, glow, t),
        diffuse := (if snap.Some? then snap.value.diffuse else 0.8) * (1.0 - t * 0.5),
        ambient := (if snap.Some? then snap.value.ambient else 0.2) + t * 0.8,
        specular := (if snap.Some? then snap.value.specular else 0.4) + t * 4.0,
        specularPower := (if snap.Some? then snap.value.specularPower else 40.0) + t * 200.0,
        opacity := Min(1.0, s.opacity + t * 0.2)))
    else
      s.(props := Props(oc,
        if snap.Some? then snap.value.ambient else 0.2,
        if snap.Some? then snap.value.diffuse else 0.8,
        if snap.Some? then snap.value.specular else 0.4,
        if snap.Some? then snap.value.specularPower else 30.0,
        s.opacity))
  }

  /** Glowing never dims a segment below the user's opacity nor past full opacity. */
  lemma PaintBounds(s: Segment, n: string, colors: map<string, Color>, initial: map<string, Snap>,
                    glow: Color, t: real)
    requires 0.0 <= t <= 1.0 && 0.0 <= s.opacity <= 1.0
    ensures var r := Paint(s, n, colors, initial, glow, t);
      && s.opacity <= r.props.opacity <= 1.0
      && (t > 0.01 ==> 0.0 <= r.props.color.r <= 1.5 && 0.0 <= r.props.color.g <= 1.5 && 0.0 <= r.props.color.b <= 1.5)
  {
  }

  // ---- stop_animation (nervous_system.py:572-598) ----

  /** Put back one segment: the colour always, the rest only when a snapshot exists; opacity from the dict. */
  function Restore(s: Segment, c: Color, snap: Option<Snap>): (r: Segment)
    ensures r == s.(props := r.props) && r.props.color == c
    ensures snap.None? ==> r.props == s.props.(color := c)
    ensures snap.Some? ==>
      (&& r.props.opacity == s.opacity && r.props.ambient == snap.value.ambient
       && r.props.diffuse == snap.value.diffuse && r.props.specular == snap.value.specular
       && r.props.specularPower == snap.value.specularPower)
  {
    match snap
    case None => s.(props := s.props.(color := c))
    case Some(p) => s.(props := Props(c, p.ambient, p.diffuse, p.specular, p.specularPower, s.opacity))
  }

  /** A frame in which a snapshotted segment is dark paints exactly what a stop would put back. */
  lemma DarkFrameIsRestore(s: Segment, n: string, colors: map<string, Color>, initial: map<string, Snap>,
                           glow: Color, t: real)
    requires t <= 0.01 && n in colors && n in initial
    ensures Paint(s, n, colors, initial, glow, t) == Restore(s, colors[n], Some(initial[n]))
  {
  }

  // ---- the animator ----

  /**
   * The animator's fields. `clock` is the frame counter; the update keeps it
   * integral as written, and the corrected update lets it carry the
   * fraction.
   */
  datatype Animator = Animator(active: Option<string>, clock: real, speed: real, animating: bool,
                               colors: map<string, Color>, initial: map<string, Snap>)

  const Init := Animator(None, 0.0, 1.0, false, map[], map[])

  /** Only known pathways are ever active. */
  predicate Known(a: Animator) {
    a.active.Some? ==> a.active.value in Pathways
  }

  /** Python's `int(x)`: truncation toward zero. */
  function Trunc(x: real): (r: int)
    ensures x >= 0.0 ==> r as real <= x < r as real + 1.0
    ensures x < 0.0 ==> r as real - 1.0 < x <= r as real
  {
    if x >= 0.0 then x.Floor else -((-x).Floor)
  }

  /** The integer frame the update works with. */
  function Frame(a: Animator): int {
    Trunc(a.clock)
  }

  /** `stop_animation`: repaint every recorded segment still loaded, then forget the records. */
  function Stop(a: Animator, sc: Scene): (r: (Animator, Scene))
    ensures r.0 == a.(active := None, animating := false, colors := map[], initial := map[])
    ensures r.1.order == sc.order && r.1.segs.Keys == sc.segs.Keys
    ensures forall n :: n in sc.segs && n !in a.colors ==> r.1.segs[n] == sc.segs[n]
    ensures forall n :: n in sc.segs && n in a.colors ==>
      r.1.segs[n] == Restore(sc.segs[n], a.colors[n], if n in a.initial then Some(a.initial[n]) else None)
  {
    (a.(active := None, animating := false, colors := map[], initial := map[]),
     sc.(segs := map n | n in sc.segs ::
       if n in a.colors then Restore(sc.segs[n], a.colors[n], if n in a.initial then Some(a.initial[n]) else None)
       else sc.segs[n]))
  }

  /**
   * `start_animation`: an unknown process type changes nothing; otherwise
   * the running animation is stopped first, and then every segment's
   * original colour and lighting are recorded and the counter restarts.
   */
  function StartAnimation(a: Animator, sc: Scene, process: string): (r: (Animator, Scene))
    ensures process !in Pathways ==> r == (a, sc)
    ensures process in Pathways ==>
      && r.1 == Stop(a, sc).1
      && r.0.active == Some(process) && r.0.animating && r.0.clock == 0.0 && r.0.speed == a.speed
      && r.0.colors.Keys == sc.segs.Keys && r.0.initial.Keys == sc.segs.Keys
      && (forall n :: n in sc.segs ==> r.0.colors[n] == r.1.segs[n].originalColor)
      && (forall n :: n in sc.segs ==> r.0.initial[n] == SnapOf(r.1.segs[n]))
  {
    if process !in Pathways then (a, sc)
    else
      var (a1, sc1) := Stop(a, sc);
      (a1.(active := Some(process), clock := 0.0, animating := true,
           colors := map n | n in sc1.segs :: sc1.segs[n].originalColor,
           initial := map n | n in sc1.segs :: SnapOf(sc1.segs[n])), sc1)
  }

  /** `set_speed`: clamp to [0.1, 5.0]. */
  function Clamp(v: real): (r: real)
    ensures 0.1 <= r <= 5.0
    ensures 0.1 <= v <= 5.0 <==> r == v
  {
    if v < 0.1 then 0.1 else if v > 5.0 then 5.0 else v
  }

  function SetSpeed(a: Animator, v: real): (r: Animator)
    ensures r == a.(speed := r.speed) && 0.1 <= r.speed <= 5.0
    ensures 0.1 <= v <= 5.0 ==> r.speed == v
  {
    a.(speed := Clamp(v))
  }

  // ---- get_brain_bounds (nervous_system.py:721-737) ----

  const Unset := Box(10000000000.0, -10000000000.0, 10000000000.0, -10000000000.0, 10000000000.0, -10000000000.0)
  const Fallback := Box(-10.0, 10.0, -10.0, 10.0, -10.0, 10.0)

  /** The running min/max over the segments' actor bounds, from the 1e10 sentinels. */
  function Extent(sc: Scene, names: seq<string>): (e: Box)
    requires forall i :: 0 <= i < |names| ==> names[i] in sc.segs
    ensures forall i :: 0 <= i < |names| ==> Inside(sc.segs[names[i]].actorBounds, e)
    ensures (exists i :: 0 <= i < |names| && sc.segs[names[i]].actorBounds.xmin <= sc.segs[names[i]].actorBounds.xmax)
      ==> e.xmin <= e.xmax
  {
    if names == [] then Unset
    else
      var init := names[..|names| - 1];
      var e := Union(Extent(sc, init), sc.segs[names[|names| - 1]].actorBounds);
      assert forall i :: 0 <= i < |init| ==> init[i] == names[i];
      e
  }

  /**
   * `get_brain_bounds`: the extent, or the fixed box when it is inverted (no
   * segments, or none with proper bounds). The result is never inverted
   * along x, so the update's own inverted-bounds test never fires.
   */
  function BrainBounds(sc: Scene): (b: Box)
    requires WellFormed(sc)
    ensures b.xmin <= b.xmax
    ensures (exists n :: n in sc.segs && sc.segs[n].actorBounds.xmin <= sc.segs[n].actorBounds.xmax)
      ==> forall n :: n in sc.segs ==> Inside(sc.segs[n].actorBounds, b)
  {
    var e := Extent(sc, sc.order);
    if e.xmin > e.xmax then Fallback else e
  }

  /** The half-extent along one axis, with 1 for a flat axis. */
  function HalfSpan(lo: real, hi: real): (h: real)
    ensures h != 0.0
  {
    if (hi - lo) / 2.0 == 0.0 then 1.0 else (hi - lo) / 2.0
  }

  /** A point in brain-normalised coordinates: the brain box maps onto [-1, 1]^3. */
  function Normalise(q: Vec3, b: Box): Vec3 {
    var c := Center(b);
    Vec3((q.x - c.x) / HalfSpan(b.xmin, b.xmax), (q.y - c.y) / HalfSpan(b.ymin, b.ymax),
         (q.z - c.z) / HalfSpan(b.zmin, b.zmax))
  }

  // ---- update_animation (nervous_system.py:600-719) ----

  /** The stage the pathway is at for the animator's frame. */
  function StageOf(p: Pathway, frame: int): (st: Stage)
    requires ValidPathway(p)
    ensures st.current < |p.regions| && st.next < |p.regions| && 0.0 <= st.blend < 1.0
  {
    Locate(p.regions, p.transition, frame % Total(p))
  }

  /** Whether an update paints anything. */
  predicate Running(a: Animator) {
    a.animating && a.active.Some?
  }

  /** The scene half of `update_animation`: every segment painted by its strength. */
  function UpdateScene(a: Animator, sc: Scene, tr: Trig, mx: Maths): (r: Scene)
    requires WellFormed(sc) && Known(a)
    ensures r.order == sc.order && r.segs.Keys == sc.segs.Keys
    ensures forall n :: n in sc.segs ==> r.segs[n] == sc.segs[n].(props := r.segs[n].props)
    ensures !Running(a) ==> r == sc
  {
    if !Running(a) then sc
    else
      var p := Pathways[a.active.value];
      PathwaysValid();
      var b := BrainBounds(sc);
      if b.xmin > b.xmax then sc
      else
        var st := StageOf(p, Frame(a));
        var pulse := Pulse(tr, Frame(a), a.speed);
        sc.(segs := map n | n in sc.segs ::
          Paint(sc.segs[n], n, a.colors, a.initial, p.color,
                Strength(p, st, Normalise(Center(sc.segs[n].actorBounds), b), pulse, mx)))
  }

  /** The counter advance as written: `int(current_frame + signal_speed)`. */
  function AdvanceAsWritten(a: Animator): (r: Animator)
    ensures r == a.(clock := r.clock)
  {
    if Running(a) then a.(clock := Trunc(a.clock + a.speed) as real) else a
  }

  /** The corrected advance: the counter keeps its fraction, so every speed moves the animation. */
  function Advance(a: Animator): (r: Animator)
    ensures r == a.(clock := r.clock)
    ensures Running(a) ==> r.clock == a.clock + a.speed
  {
    if Running(a) then a.(clock := a.clock + a.speed) else a
  }

  /** `update_animation` as written. */
  function UpdateAsWritten(a: Animator, sc: Scene, tr: Trig, mx: Maths): (r: (Animator, Scene))
    requires WellFormed(sc) && Known(a)
    ensures r.1 == UpdateScene(a, sc, tr, mx)
    ensures r.0 == AdvanceAsWritten(a)
  {
    (AdvanceAsWritten(a), UpdateScene(a, sc, tr, mx))
  }

  /** `update_animation` with the corrected advance. */
  function Update(a: Animator, sc: Scene, tr: Trig, mx: Maths): (r: (Animator, Scene))
    requires WellFormed(sc) && Known(a)
    ensures r.1 == UpdateScene(a, sc, tr, mx)
    ensures r.0 == Advance(a)
  {
    (Advance(a), UpdateScene(a, sc, tr, mx))
  }

  /**
   * Each painted segment is at least as opaque as the user set it and at most
   * fully opaque, and its colour is either the recorded one or a glow with
   * every channel in [0, 1.5].
   */
  lemma UpdateBounds(a: Animator, sc: Scene, tr: Trig, mx: Maths, n: string)
    requires WellFormed(sc) && Known(a) && TrigSane(tr) && MathsSane(mx)
    requires n in sc.segs && 0.0 <= sc.segs[n].opacity <= 1.0 && Running(a)
    ensures var s := UpdateScene(a, sc, tr, mx).segs[n];
      && sc.segs[n].opacity <= s.props.opacity <= 1.0
      && (s.props.color == RecordedColor(a.colors, n)
          || (0.0 <= s.props.color.r <= 1.5 && 0.0 <= s.props.color.g <= 1.5 && 0.0 <= s.props.color.b <= 1.5))
  {
    var p := Pathways[a.active.value];
    PathwaysValid();
    var b := BrainBounds(sc);
    var st := StageOf(p, Frame(a));
    var pulse := Pulse(tr, Frame(a), a.speed);
    var t := Strength(p, st, Normalise(Center(sc.segs[n].actorBounds), b), pulse, mx);
    StrengthRange(p, st, Normalise(Center(sc.segs[n].actorBounds), b), pulse, mx);
    PaintBounds(sc.segs[n], n, a.colors, a.initial, p.color, t);
  }

  // ---- the counter over many ticks ----

  function AdvanceAsWrittenN(a: Animator, k: nat): Animator
    decreases k
  {
    if k == 0 then a else AdvanceAsWrittenN(AdvanceAsWritten(a), k - 1)
  }

  function AdvanceN(a: Animator, k: nat): Animator
    decreases k
  {
    if k == 0 then a else AdvanceN(Advance(a), k - 1)
  }

  /**
   * As written, any speed below 1 (the slider goes down to 0.1) truncates
   * away: from a whole, non-negative frame the counter never moves, so the
   * pathway stays on its first frame and even the pulse is frozen.
   */
  lemma {:induction false} FrozenAsWritten(a: Animator, k: nat)
    requires a.clock >= 0.0 && a.clock == Trunc(a.clock) as real
    requires 0.0 <= a.speed < 1.0
    ensures AdvanceAsWrittenN(a, k) == a
    decreases k
  {
    if k > 0 {
      TruncIs(a.clock + a.speed, Trunc(a.clock));
      assert AdvanceAsWritten(a) == a;
      FrozenAsWritten(AdvanceAsWritten(a), k - 1);
    }
  }

  /** The freeze from a fresh start at half speed. */
  lemma HalfSpeedFreezes(sc: Scene, k: nat)
    ensures var a := StartAnimation(SetSpeed(Init, 0.5), sc, "pain").0;
      Frame(AdvanceAsWrittenN(a, k)) == 0
  {
    var a := StartAnimation(SetSpeed(Init, 0.5), sc, "pain").0;
    FrozenAsWritten(a, k);
  }

  /** The corrected counter moves by exactly the speed per tick. */
  lemma {:induction false} AdvanceNMoves(a: Animator, k: nat)
    requires Running(a)
    ensures AdvanceN(a, k) == a.(clock := a.clock + k as real * a.speed)
    decreases k
  {
    if k > 0 {
      AdvanceNMoves(Advance(a), k - 1);
    }
  }

  /** With the corrected counter, ten ticks move the frame on at any speed the clamp allows. */
  lemma TenTicksMove(a: Animator)
    requires Running(a) && a.clock >= 0.0 && 0.1 <= a.speed
    ensures Frame(AdvanceN(a, 10)) >= Frame(a) + 1
  {
    AdvanceNMoves(a, 10);
    var x := a.clock + 10 as real * a.speed;
    assert x >= a.clock + 1.0;
    assert Trunc(x) as real > Trunc(a.clock) as real;
  }

  /** For whole-number speeds from a whole frame, the corrected counter is the written one. */
  lemma AdvanceAgrees(a: Animator)
    requires a.clock >= 0.0 && a.clock == Trunc(a.clock) as real
    requires a.speed >= 0.0 && a.speed == Trunc(a.speed) as real
    ensures Advance(a) == AdvanceAsWritten(a)
  {
    var n := Trunc(a.clock) + Trunc(a.speed);
    assert a.clock + a.speed == n as real;
    TruncIs(a.clock + a.speed, n);
  }

  /** `int(x)` of a non-negative `x` is the whole number just below it. */
  lemma TruncIs(x: real, n: int)
    requires 0 <= n && n as real <= x < n as real + 1.0
    ensures Trunc(x) == n
  {
  }

  // ---- start, updates, stop ----

  /**
   * The records a start leaves: every loaded segment's original colour and
   * its lighting as `base` showed it, for a scene that differs from `base`
   * only in painted properties.
   */
  ghost predicate Recorded(a: Animator, sc: Scene, base: Scene) {
    && Known(a)
    && sc.order == base.order && sc.segs.Keys == base.segs.Keys
    && a.colors.Keys == base.segs.Keys && a.initial.Keys == base.segs.Keys
    && (forall n :: n in base.segs ==> sc.segs[n] == base.segs[n].(props := sc.segs[n].props))
    && (forall n :: n in base.segs ==> a.colors[n] == base.segs[n].originalColor)
    && (forall n :: n in base.segs ==> a.initial[n] == SnapOf(base.segs[n]))
  }

  /** `k` frames of `update_animation` as written. */
  function UpdateN(a: Animator, sc: Scene, k: nat, tr: Trig, mx: Maths): (r: (Animator, Scene))
    requires WellFormed(sc) && Known(a)
    decreases k
  {
    if k == 0 then (a, sc)
    else
      var (a1, sc1) := UpdateAsWritten(a, sc, tr, mx);
      UpdateN(a1, sc1, k - 1, tr, mx)
  }

  /** Updates keep the records and touch only painted properties. */
  lemma {:induction false} UpdateNKeeps(a: Animator, sc: Scene, base: Scene, k: nat, tr: Trig, mx: Maths)
    requires WellFormed(sc) && Recorded(a, sc, base)
    ensures WellFormed(UpdateN(a, sc, k, tr, mx).1)
    ensures Recorded(UpdateN(a, sc, k, tr, mx).0, UpdateN(a, sc, k, tr, mx).1, base)
    decreases k
  {
    if k > 0 {
      var (a1, sc1) := UpdateAsWritten(a, sc, tr, mx);
      assert forall n :: n in base.segs ==> sc1.segs[n] == base.segs[n].(props := sc1.segs[n].props) by {
        forall n | n in base.segs
          ensures sc1.segs[n] == base.segs[n].(props := sc1.segs[n].props)
        {
          assert sc1.segs[n] == sc.segs[n].(props := sc1.segs[n].props);
        }
      }
      assert Recorded(a1, sc1, base);
      UpdateNKeeps(a1, sc1, base, k - 1, tr, mx);
    }
  }

  /**
   * Starting a pathway, letting it run for any number of frames and stopping
   * it gives every segment back as the start found it, except that its
   * colour is its original colour and its opacity the one the user set.
   */
  lemma StartRunStop(a: Animator, sc: Scene, process: string, k: nat, tr: Trig, mx: Maths)
    requires WellFormed(sc) && process in Pathways
    ensures var (a1, sc1) := StartAnimation(a, sc, process);
      var (a2, sc2) := UpdateN(a1, sc1, k, tr, mx);
      var (a3, sc3) := Stop(a2, sc2);
      && a3.active == None && !a3.animating && a3.colors == map[] && a3.initial == map[]
      && sc3.order == sc1.order && sc3.segs.Keys == sc1.segs.Keys
      && forall n :: n in sc1.segs ==>
           sc3.segs[n] == sc1.segs[n].(props := sc1.segs[n].props.(color := sc1.segs[n].originalColor,
                                                                  opacity := sc1.segs[n].opacity))
  {
    var (a1, sc1) := StartAnimation(a, sc, process);
    assert WellFormed(sc1);
    assert Recorded(a1, sc1, sc1);
    UpdateNKeeps(a1, sc1, sc1, k, tr, mx);
    var (a2, sc2) := UpdateN(a1, sc1, k, tr, mx);
    var (a3, sc3) := Stop(a2, sc2);
    forall n | n in sc1.segs
      ensures sc3.segs[n] == sc1.segs[n].(props := sc1.segs[n].props.(color := sc1.segs[n].originalColor,
                                                                      opacity := sc1.segs[n].opacity))
    {
      assert sc3.segs[n] == Restore(sc2.segs[n], a2.colors[n], Some(a2.initial[n]));
    }
  }

  /** A second stop changes nothing: the first one forgot the records. */
  lemma StopTwice(a: Animator, sc: Scene)
    ensures var (a1, sc1) := Stop(a, sc); Stop(a1, sc1) == (a1, sc1)
  {
    var (a1, sc1) := Stop(a, sc);
    assert Stop(a1, sc1).1.segs == sc1.segs;
  }
}
