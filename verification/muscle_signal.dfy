/**
 * The musculoskeletal viewer's `NeuralSignalAnimator`: a motor signal that
 * sweeps down a segment from the top of its mesh to the bottom every
 * 1.2 s, tinting the segment pale blue and making it shinier near the
 * band. Wall-clock time and the square root arrive as parameters.
 */
module MuscleSignal {
  import opened Geometry
  import opened Scene

  /** Seconds per sweep. */
  const Duration := 1.2

  /** The colour a segment is tinted towards. */
  const SignalColor := Color(0.7, 0.9, 1.0)

  /**
   * One entry of `active_signals`: the segment, the properties it had when
   * the signal was created, the time the current sweep started and the
   * mesh bounds. The snapshot also holds the specular power, which
   * `create_neural_signal` does not record: only the corrected stop reads
   * it.
   */
  datatype Flash = Flash(name: string, color: Color, ambient: real, diffuse: real, specular: real,
                         specularPower: real, startTime: real, bounds: Box)

  /**
   * `create_neural_signal`: snapshot the segment's look and start the first
   * sweep now. The specular power is recorded for the corrected stop.
   */
  function Create(name: string, s: Segment, now: real): (f: Flash)
    ensures f.name == name && f.startTime == now && f.bounds == s.dataBounds
    ensures f.color == s.props.color && f.ambient == s.props.ambient && f.diffuse == s.props.diffuse
    ensures f.specular == s.props.specular && f.specularPower == s.props.specularPower
  {
    Flash(name, s.props.color, s.props.ambient, s.props.diffuse, s.props.specular,
          s.props.specularPower, now, s.dataBounds)
  }

  // ---- create_neural_signal and update_signal_animation (musculoskeletal_system.py:43-122) ----

  /** A sweep that has run longer than its duration starts over now. */
  function Restarted(f: Flash, now: real): (r: Flash)
    ensures now - f.startTime > Duration ==> r == f.(startTime := now)
    ensures now - f.startTime <= Duration ==> r == f
  {
    if now - f.startTime > Duration then f.(startTime := now) else f
  }

  /** How far through its sweep the signal is at `now`. */
  function Progress(f: Flash, now: real): real {
    (now - Restarted(f, now).startTime) / Duration
  }

  /** With time not running backwards, the progress stays in [0, 1]. */
  lemma ProgressRange(f: Flash, now: real)
    requires f.startTime <= now
    ensures 0.0 <= Progress(f, now) <= 1.0
    ensures now - f.startTime > Duration ==> Progress(f, now) == 0.0
  {
  }

  /** The mesh height, or 1 for a flat mesh. */
  function YRange(b: Box): (r: real)
    ensures r > 0.0
  {
    if b.ymax > b.ymin then b.ymax - b.ymin else 1.0
  }

  /** The band's height: from the top of the mesh down by `progress` of the height. */
  function SignalY(b: Box, progress: real): real {
    b.ymax - progress * YRange(b)
  }

  /** The band's half-width: 15 % of the height. */
  function Width(b: Box): (r: real)
    ensures r > 0.0
  {
    YRange(b) * 0.15
  }

  /** The band sweeps from the top of the mesh at progress 0 to the bottom at progress 1. */
  lemma SweepEnds(b: Box)
    requires b.ymax > b.ymin
    ensures SignalY(b, 0.0) == b.ymax && SignalY(b, 1.0) == b.ymin
  {
  }

  function SumY(ps: seq<Vec3>): real {
    if ps == [] then 0.0 else ps[0].y + SumY(ps[1..])
  }

  /** The mean height of the mesh points. */
  function MeanY(ps: seq<Vec3>): real
    requires |ps| > 0
  {
    SumY(ps) / |ps| as real
  }

  function Abs(x: real): (r: real)
    ensures r >= 0.0 && (r == x || r == -x)
  {
    if x < 0.0 then -x else x
  }

  /** `(1 - d / width) ** 0.5` inside the band, 0 outside. */
  function Intensity(d: real, width: real, sqrt: real -> real): (i: real)
    requires 0.0 <= d && 0.0 < width
    ensures d >= width ==> i == 0.0
    ensures SqrtSane(sqrt) ==> 0.0 <= i <= 1.0
  {
    if d < width then
      BandFraction(d, width);
      sqrt(1.0 - d / width)
    else 0.0
  }

  lemma BandFraction(d: real, w: real)
    requires 0.0 <= d < w
    ensures 0.0 < 1.0 - d / w <= 1.0
  {
  }

  /** The signal's strength on a segment with points: from the mean height's distance to the band. */
  function SegmentIntensity(f: Flash, ps: seq<Vec3>, progress: real, sqrt: real -> real): real
    requires |ps| > 0
  {
    Intensity(Abs(MeanY(ps) - SignalY(f.bounds, progress)), Width(f.bounds), sqrt)
  }

  /** The look at intensity `i`: tint from the recorded colour, and fixed ramps for the lighting. */
  function Glow(p: Props, f: Flash, i: real): Props {
    p.(color := Mix(f.color, SignalColor, i), ambient := 0.1 + i * 0.4, diffuse := 0.7 + i * 0.1,
       specular := 0.3 + i * 0.3, specularPower := 10.0 + i * 10.0)
  }

  /**
   * `update_signal_animation`: restart an expired sweep, then repaint the
   * segment; a segment without points keeps its look.
   */
  function Update(f: Flash, s: Segment, now: real, sqrt: real -> real): (r: (Flash, Segment))
    ensures r.0 == Restarted(f, now)
    ensures |s.points| == 0 ==> r.1 == s
    ensures |s.points| > 0 ==>
      r.1 == s.(props := Glow(s.props, f, SegmentIntensity(f, s.points, Progress(f, now), sqrt)))
  {
    var g := Restarted(f, now);
    if |s.points| == 0 then (g, s)
    else (g, s.(props := Glow(s.props, f, SegmentIntensity(f, s.points, Progress(f, now), sqrt))))
  }

  /**
   * Every channel of the tint lies between the recorded colour and the
   * signal colour; ambient stays in [0.1, 0.5], diffuse in [0.7, 0.8],
   * specular in [0.3, 0.6] and specular power in [10, 20]; outside the
   * band the colour is exactly the recorded one.
   */
  lemma UpdateBounds(f: Flash, s: Segment, now: real, sqrt: real -> real)
    requires SqrtSane(sqrt) && |s.points| > 0
    ensures var p := Update(f, s, now, sqrt).1.props;
      && ColorBetween(p.color, f.color, SignalColor)
      && 0.1 <= p.ambient <= 0.5 && 0.7 <= p.diffuse <= 0.8
      && 0.3 <= p.specular <= 0.6 && 10.0 <= p.specularPower <= 20.0
      && (Abs(MeanY(s.points) - SignalY(f.bounds, Progress(f, now))) >= Width(f.bounds) ==> p.color == f.color)
  {
    var i := SegmentIntensity(f, s.points, Progress(f, now), sqrt);
    MixBetween(f.color, SignalColor, i);
  }

  // ---- _stop_active_signals (musculoskeletal_system.py:546-554) ----

  /** The segment differs from `s0` at most in the five properties a signal paints. */
  ghost predicate Repainted(s0: Segment, s: Segment) {
    s == s0.(props := s0.props.(color := s.props.color, ambient := s.props.ambient, diffuse := s.props.diffuse,
                                specular := s.props.specular, specularPower := s.props.specularPower))
  }

  /** An update only repaints. */
  lemma UpdateRepaints(f: Flash, s: Segment, now: real, sqrt: real -> real)
    ensures Repainted(s, Update(f, s, now, sqrt).1)
  {
  }

  /** The stop as written: colour, ambient, diffuse and specular put back; specular power left as painted. */
  function StopAsWritten(f: Flash, s: Segment): (r: Segment)
    ensures r.props.specularPower == s.props.specularPower
    ensures r.props.color == f.color && r.props.ambient == f.ambient
    ensures r.props.diffuse == f.diffuse && r.props.specular == f.specular
  {
    s.(props := s.props.(color := f.color, ambient := f.ambient, diffuse := f.diffuse, specular := f.specular))
  }

  /** The stop with the specular power put back as well. */
  function Stop(f: Flash, s: Segment): (r: Segment)
    ensures r == StopAsWritten(f, s).(props := StopAsWritten(f, s).props.(specularPower := f.specularPower))
  {
    var w := StopAsWritten(f, s);
    w.(props := w.props.(specularPower := f.specularPower))
  }

  /** Creating a signal, repainting any number of times and stopping gives the segment back unchanged. */
  lemma StopRestores(name: string, s0: Segment, t: real, s: Segment)
    requires Repainted(s0, s)
    ensures Stop(Create(name, s0, t), s) == s0
  {
  }

  /**
   * As written, a segment whose specular power lies outside [10, 20] (the
   * viewer loads segments with 30) comes back from a signal with a
   * different one.
   */
  lemma StopAsWrittenLosesSpecularPower(name: string, s0: Segment, t: real, now: real, sqrt: real -> real)
    requires SqrtSane(sqrt) && |s0.points| > 0
    requires s0.props.specularPower > 20.0 || s0.props.specularPower < 10.0
    ensures var f := Create(name, s0, t);
      StopAsWritten(f, Update(f, s0, now, sqrt).1) != s0
  {
    var f := Create(name, s0, t);
    UpdateBounds(f, s0, now, sqrt);
  }
}
