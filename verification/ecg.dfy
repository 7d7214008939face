/**
 * The heart viewer's ECG conduction engine (`ECGConductionSystem`): a phase
 * accumulator that advances one sample per animation tick, wraps at one
 * beat (`60 / bpm` seconds), and reports two edge-triggered sound cues.
 * The phase bookkeeping is exact over `real`; the Gaussian bumps use a
 * Gaussian kernel supplied by the caller and the graph noise is a parameter.
 */
module Ecg {

  /** Pathway timings as fractions of the cycle. */
  const P_WAVE_START := 0.1
  const P_WAVE_DURATION := 0.08
  const AV_DELAY := 0.16
  const QRS_DURATION := 0.1
  const T_WAVE_START := 0.4
  const T_WAVE_DURATION := 0.12

  /**
   * `fs` samples per second, heart rate `hr` (bpm), `cycleTime` seconds per
   * beat and the time `phase` elapsed in the current beat; `contraction` and
   * `glow` are the strengths the 3D animation reads.
   */
  datatype Conduction = Conduction(fs: real, hr: int, cycleTime: real, phase: real,
                                   contraction: real, glow: real)

  /** The state `__init__` builds, for a tick rate `fs` (30 by default). */
  function Init(fs: real): (c: Conduction)
    requires fs > 0.0
    ensures Valid(c) && c.phase == 0.0 && c.hr == 70
  {
    Conduction(fs, 70, 60.0 / 70.0, 0.0, 0.15, 0.6)
  }

  ghost predicate Valid(c: Conduction) {
    c.fs > 0.0 && c.hr > 0 && c.cycleTime == 60.0 / (c.hr as real) && 0.0 <= c.phase <= c.cycleTime
  }

  /** Seconds per tick. */
  function Step(c: Conduction): real requires c.fs > 0.0 { 1.0 / c.fs }

  /** Normalised time within the beat. */
  function Normalized(c: Conduction): real requires c.cycleTime > 0.0 { c.phase / c.cycleTime }

  /** The new state and the two sound cues of one tick. */
  datatype Beat = Beat(state: Conduction, atrial: bool, ventricular: bool)

  /**
   * The bookkeeping half of `update(bpm)`. A bpm change recomputes the cycle
   * length without resetting the phase; the phase then advances by one
   * sample, and when it overshoots the cycle it restarts at 0 and the atrial
   * cue fires. The ventricular cue fires when the normalised time reaches
   * `AV_DELAY` while it was below it one sample earlier.
   */
  function Advance(c: Conduction, bpm: int): (b: Beat)
    requires Valid(c) && bpm > 0
    ensures Valid(b.state)
    ensures b.state.hr == bpm && b.state.cycleTime == 60.0 / (bpm as real)
    ensures b.state.fs == c.fs && b.state.contraction == c.contraction && b.state.glow == c.glow
    ensures 0.0 <= Normalized(b.state) <= 1.0
    // the atrial cue is exactly the wrap-around, which restarts the phase at 0
    ensures b.atrial <==> c.phase + Step(c) > b.state.cycleTime
    ensures b.atrial ==> b.state.phase == 0.0 && !b.ventricular
    ensures !b.atrial ==> b.state.phase == c.phase + Step(c)
    // without a wrap, the ventricular cue is a crossing of AV_DELAY between the
    // previous and the new phase, both measured against the current cycle
    ensures !b.atrial ==>
      (b.ventricular <==> c.phase / b.state.cycleTime < AV_DELAY <= Normalized(b.state))
  {
    var hr := if bpm != c.hr then bpm else c.hr;
    var cycle := if bpm != c.hr then 60.0 / (bpm as real) else c.cycleTime;
    PositiveQuotient(60.0, bpm as real);
    PositiveQuotient(1.0, c.fs);
    var h := 1.0 / c.fs;
    var p := c.phase + h;
    var wrapped := p > cycle;
    var phase := if wrapped then 0.0 else p;
    var t := phase / cycle;
    var ventricular := t >= AV_DELAY && t - h / cycle < AV_DELAY;
    assert !wrapped ==> 0.0 <= t <= 1.0 && t - h / cycle == c.phase / cycle by {
      if !wrapped { StepWithinCycle(c.phase, h, cycle); }
    }
    Beat(c.(hr := hr, cycleTime := cycle, phase := phase), wrapped, ventricular)
  }

  lemma PositiveQuotient(a: real, b: real)
    requires a > 0.0 && b > 0.0
    ensures a / b > 0.0
  {
  }

  /**
   * A step of `h` that stays inside the cycle: the new normalised time lies
   * in [0, 1] and one step earlier it was the old phase's.
   */
  lemma StepWithinCycle(prev: real, h: real, cycle: real)
    requires 0.0 <= prev && 0.0 < h && prev + h <= cycle
    ensures 0.0 <= (prev + h) / cycle <= 1.0
    ensures (prev + h) / cycle - h / cycle == prev / cycle
  {
    DivBounds(prev + h, cycle);
  }

  lemma DivBounds(a: real, b: real)
    requires 0.0 <= a <= b && b > 0.0
    ensures 0.0 <= a / b <= 1.0
  {
  }

  /**
   * One Gaussian bump `amplitude * exp(-(t - center)^2 / (2 (duration / 4)^2))`,
   * written as `amplitude * kernel(z)` for the standardised distance
   * `z = (t - center) / (duration / 4)`, where `kernel(z) = exp(-z^2 / 2)`.
   */
  function Gaussian(kernel: real -> real, t: real, center: real, duration: real, amplitude: real): real
    requires duration > 0.0
  {
    amplitude * kernel((t - center) / (duration / 4.0))
  }

  /** What the model needs of `exp(-z^2 / 2)`: it lies in (0, 1] for every `z`. */
  ghost predicate KernelSane(kernel: real -> real) {
    forall z :: 0.0 < kernel(z) <= 1.0
  }

  /** The per-tick output of `update`: the graph value and the 3D and sound cues. */
  datatype Sample = Sample(total: real, atriaScale: real, ventricleScale: real,
                           playAtrial: bool, playVentricular: bool)

  /** The wave shapes at normalised time `t`, plus the graph noise `noise`. */
  function Waveform(kernel: real -> real, t: real, noise: real): (r: (real, real, real))
  {
    var pCenter := P_WAVE_START + P_WAVE_DURATION / 2.0;
    var qrsCenter := AV_DELAY + QRS_DURATION / 2.0;
    var tCenter := T_WAVE_START + T_WAVE_DURATION / 2.0;
    var pWave := Gaussian(kernel, t, pCenter, P_WAVE_DURATION, 0.2);
    var qrs := Gaussian(kernel, t, qrsCenter - 0.01, 0.02, -0.2)
             + Gaussian(kernel, t, qrsCenter, 0.04, 1.0)
             + Gaussian(kernel, t, qrsCenter + 0.02, 0.03, -0.15);
    var tWave := Gaussian(kernel, t, tCenter, T_WAVE_DURATION, 0.15);
    (pWave + qrs + tWave + noise,
     Gaussian(kernel, t, pCenter, P_WAVE_DURATION, 1.0),
     Gaussian(kernel, t, qrsCenter, QRS_DURATION, 1.0))
  }

  /** `update(bpm)`: advance one tick and sample the waveform at the new phase. */
  function Update(c: Conduction, bpm: int, kernel: real -> real, noise: real): (r: (Conduction, Sample))
    requires Valid(c) && bpm > 0 && KernelSane(kernel)
    ensures Valid(r.0) && r.0 == Advance(c, bpm).state
    ensures r.1.playAtrial == Advance(c, bpm).atrial
    ensures r.1.playVentricular == Advance(c, bpm).ventricular
    ensures 0.0 < r.1.atriaScale <= 1.0 && 0.0 < r.1.ventricleScale <= 1.0
  {
    var b := Advance(c, bpm);
    var t := Normalized(b.state);
    var w := Waveform(kernel, t, noise);
    (b.state, Sample(w.0, w.1, w.2, b.atrial, b.ventricular))
  }

  // ---- Runs at a constant heart rate ----

  /** The state after `k` ticks at `bpm`. */
  function Iter(c: Conduction, bpm: int, k: nat): (r: Conduction)
    requires Valid(c) && bpm > 0
    ensures Valid(r) && r.fs == c.fs
    ensures k > 0 ==> r.hr == bpm
  {
    if k == 0 then c else Advance(Iter(c, bpm, k - 1), bpm).state
  }

  /** The cues of tick number `k` (the first tick is number 1). */
  function TickAt(c: Conduction, bpm: int, k: nat): Beat
    requires Valid(c) && bpm > 0 && k >= 1
  {
    Advance(Iter(c, bpm, k - 1), bpm)
  }

  predicate NoWrapIn(c: Conduction, bpm: int, i: nat, j: nat)
    requires Valid(c) && bpm > 0
  {
    forall k :: i < k <= j ==> !TickAt(c, bpm, k).atrial
  }

  /** Between wraps the phase only grows. */
  lemma {:induction false} PhaseGrows(c: Conduction, bpm: int, i: nat, j: nat)
    requires Valid(c) && bpm > 0 && i <= j
    requires NoWrapIn(c, bpm, i, j)
    ensures Iter(c, bpm, j).phase >= Iter(c, bpm, i).phase
  {
    if j > i {
      PhaseGrows(c, bpm, i, j - 1);
      var b := TickAt(c, bpm, j);
      assert !b.atrial;
      assert Iter(c, bpm, j) == b.state;
      assert b.state.phase == Iter(c, bpm, j - 1).phase + Step(c);
    }
  }

  /**
   * At a constant heart rate the ventricular cue fires at most once between
   * wraps: two ticks that both fire it have an atrial wrap between them.
   */
  lemma VentricularAtMostOncePerBeat(c: Conduction, bpm: int, i: nat, j: nat)
    requires Valid(c) && bpm > 0 && c.hr == bpm
    requires 1 <= i < j
    requires TickAt(c, bpm, i).ventricular && TickAt(c, bpm, j).ventricular
    ensures exists k :: i < k <= j && TickAt(c, bpm, k).atrial
  {
    if forall k :: i < k <= j ==> !TickAt(c, bpm, k).atrial {
      assert NoWrapIn(c, bpm, i, j - 1);
      PhaseGrows(c, bpm, i, j - 1);
      var C := 60.0 / (bpm as real);
      assert Iter(c, bpm, i).cycleTime == C && Iter(c, bpm, j - 1).cycleTime == C;
      assert !TickAt(c, bpm, i).atrial by {
        assert TickAt(c, bpm, i).ventricular;
      }
      assert AV_DELAY <= Iter(c, bpm, i).phase / C;
      assert !TickAt(c, bpm, j).atrial;
      assert Iter(c, bpm, j - 1).phase / C < AV_DELAY;
      assert Iter(c, bpm, j - 1).phase >= Iter(c, bpm, i).phase;
      QuotientMonotone(Iter(c, bpm, i).phase, Iter(c, bpm, j - 1).phase, C);
      assert false;
    }
  }

  /**
   * Conversely, when a tick is shorter than the part of the beat after
   * `AV_DELAY` (at 30 samples per second this holds for every rate up to
   * 151 bpm), the ventricular cue fires between any two consecutive wraps.
   */
  lemma VentricularEachBeat(c: Conduction, bpm: int, a: nat, b: nat)
    requires Valid(c) && bpm > 0 && c.hr == bpm
    requires Step(c) <= (1.0 - AV_DELAY) * (60.0 / (bpm as real))
    requires 1 <= a < b && TickAt(c, bpm, a).atrial && TickAt(c, bpm, b).atrial
    requires NoWrapIn(c, bpm, a, b - 1)
    ensures exists k :: a < k < b && TickAt(c, bpm, k).ventricular
  {
    var C := 60.0 / (bpm as real);
    var wa := TickAt(c, bpm, a);
    var last := Iter(c, bpm, b - 1);
    assert Iter(c, bpm, a) == wa.state;
    assert wa.state.phase == 0.0;
    assert TickAt(c, bpm, b).atrial;
    assert last.cycleTime == C;
    assert last.phase + Step(c) > C;
    assert last.phase >= AV_DELAY * C;
    AboveDelay(last.phase, C);
    assert a < b - 1;
    FirstCrossing(c, bpm, a, b - 1);
  }

  /**
   * If the normalised phase is below `AV_DELAY` after tick `lo` and at or above
   * it after tick `hi`, with no wrap in between, some tick in between fires
   * the ventricular cue.
   */
  lemma {:induction false} FirstCrossing(c: Conduction, bpm: int, lo: nat, hi: nat)
    requires Valid(c) && bpm > 0 && c.hr == bpm && lo < hi
    requires NoWrapIn(c, bpm, lo, hi)
    requires Iter(c, bpm, lo).phase / (60.0 / (bpm as real)) < AV_DELAY
    requires AV_DELAY <= Iter(c, bpm, hi).phase / (60.0 / (bpm as real))
    ensures exists k :: lo < k <= hi && TickAt(c, bpm, k).ventricular
  {
    var C := 60.0 / (bpm as real);
    assert Iter(c, bpm, hi - 1).cycleTime == C;
    var b := TickAt(c, bpm, hi);
    assert !b.atrial && Iter(c, bpm, hi) == b.state;
    if Iter(c, bpm, hi - 1).phase / C < AV_DELAY {
      assert b.ventricular;
    } else {
      assert NoWrapIn(c, bpm, lo, hi - 1);
      FirstCrossing(c, bpm, lo, hi - 1);
    }
  }

  lemma AboveDelay(x: real, C: real)
    requires C > 0.0 && x >= AV_DELAY * C
    ensures x / C >= AV_DELAY
  {
  }

  lemma QuotientMonotone(a: real, b: real, d: real)
    requires a <= b && d > 0.0
    ensures a / d <= b / d
  {
  }
}
