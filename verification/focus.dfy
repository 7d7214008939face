/**
 * `FocusNavigator`, in its four copies: focus mode snapshots every segment's
 * opacity and ambient, highlights one segment and dims the rest, and restores
 * the snapshot when it is turned off. The copies differ in the dimmed opacity,
 * in whether a click re-snapshots an empty snapshot, and in where the
 * restored opacity comes from.
 */
module Focus {
  import opened Scene

  /** A snapshot entry. */
  datatype Snap = Snap(opacity: real, ambient: real)

  datatype Navigator = Navigator(active: bool, snapshot: map<string, Snap>)

  const Inactive := Navigator(false, map[])

  /** The opacity the non-focused segments get. */
  function DimOpacity(v: Viewer): real { if v == Cardio then 0.1 else 0.2 }

  const TargetOpacity := 1.0
  const TargetAmbient := 0.8
  /** The ambient `dict.get(..., 0.2)` falls back to for a segment missing from the snapshot. */
  const DefaultAmbient := 0.2

  /** `activate`: turn on and snapshot the live opacity and ambient of every segment. */
  function Activate(sc: Scene): (f: Navigator)
    ensures f.active && f.snapshot.Keys == sc.segs.Keys
    ensures forall n :: n in sc.segs ==>
      f.snapshot[n] == Snap(sc.segs[n].props.opacity, sc.segs[n].props.ambient)
  {
    Navigator(true, map n | n in sc.segs :: Snap(sc.segs[n].props.opacity, sc.segs[n].props.ambient))
  }

  /** The snapshot's ambient for `n`, or the default. */
  function SnapAmbient(f: Navigator, n: string): real {
    if n in f.snapshot then f.snapshot[n].ambient else DefaultAmbient
  }

  /** The highlighted or dimmed properties of one segment. */
  function Highlight(v: Viewer, f: Navigator, n: string, target: string, s: Segment): (r: Segment)
    ensures n == target ==> r.props.opacity == TargetOpacity && r.props.ambient == TargetAmbient
    ensures n != target ==> r.props.opacity == DimOpacity(v) && r.props.ambient == SnapAmbient(f, n)
    ensures r == s.(props := s.props.(opacity := r.props.opacity, ambient := r.props.ambient))
  {
    if n == target then s.(props := s.props.(opacity := TargetOpacity, ambient := TargetAmbient))
    else s.(props := s.props.(opacity := DimOpacity(v), ambient := SnapAmbient(f, n)))
  }

  /**
   * `focus_on_segment`: ignored while inactive. The heart viewer's copy first
   * re-snapshots when the snapshot is empty. The target then gets opacity 1.0
   * and ambient 0.8, and every other segment the dimmed opacity and its
   * snapshot ambient.
   */
  function FocusOn(v: Viewer, f: Navigator, sc: Scene, target: string): (r: (Navigator, Scene))
    ensures !f.active ==> r == (f, sc)
    ensures f.active ==> r.0.active
    ensures f.active && (v != Cardio || |f.snapshot| > 0) ==> r.0 == f
    ensures f.active && v == Cardio && |f.snapshot| == 0 ==> r.0 == Activate(sc)
    ensures r.1.order == sc.order && r.1.segs.Keys == sc.segs.Keys
    ensures f.active ==> forall n :: n in sc.segs ==> r.1.segs[n] == Highlight(v, r.0, n, target, sc.segs[n])
  {
    if !f.active then (f, sc)
    else
      var g := if v == Cardio && |f.snapshot| == 0 then Activate(sc) else f;
      (g, sc.(segs := map n | n in sc.segs :: Highlight(v, g, n, target, sc.segs[n])))
  }

  /** The restored properties of one snapshotted segment. */
  function Restore(v: Viewer, p: Snap, s: Segment): (r: Segment)
    ensures r.props.ambient == p.ambient
    ensures r.props.opacity == (if v == Nervous then s.opacity else p.opacity)
    ensures r == s.(props := s.props.(opacity := r.props.opacity, ambient := r.props.ambient))
  {
    s.(props := s.props.(opacity := if v == Nervous then s.opacity else p.opacity, ambient := p.ambient))
  }

  /**
   * `deactivate`: turn off, restore every snapshotted segment still present
   * (the brain viewer's copy takes the opacity from the segment's user-set
   * `opacity` field instead of the snapshot), and empty the snapshot.
   */
  function Deactivate(v: Viewer, f: Navigator, sc: Scene): (r: (Navigator, Scene))
    ensures r.0 == Inactive
    ensures r.1.order == sc.order && r.1.segs.Keys == sc.segs.Keys
    ensures forall n :: n in sc.segs && n in f.snapshot ==> r.1.segs[n] == Restore(v, f.snapshot[n], sc.segs[n])
    ensures forall n :: n in sc.segs && n !in f.snapshot ==> r.1.segs[n] == sc.segs[n]
  {
    (Inactive, sc.(segs := map n | n in sc.segs ::
      if n in f.snapshot then Restore(v, f.snapshot[n], sc.segs[n]) else sc.segs[n]))
  }

  /** Focus clicks on the given targets, in order. */
  function FocusAll(v: Viewer, f: Navigator, sc: Scene, targets: seq<string>): (r: (Navigator, Scene))
    decreases |targets|
  {
    if targets == [] then (f, sc)
    else
      var s := FocusOn(v, f, sc, targets[0]);
      FocusAll(v, s.0, s.1, targets[1..])
  }

  /** Two segment maps agree everywhere except on opacity and ambient. */
  ghost predicate SameBut(a: map<string, Segment>, b: map<string, Segment>) {
    a.Keys == b.Keys &&
    forall n :: n in a ==> b[n] == a[n].(props := a[n].props.(opacity := b[n].props.opacity, ambient := b[n].props.ambient))
  }

  /**
   * Any number of focus clicks after `activate` keep the snapshot taken at
   * activation and touch only opacity and ambient.
   */
  lemma {:induction false} FocusAllKeepsSnapshot(v: Viewer, sc0: Scene, sc: Scene, targets: seq<string>)
    requires sc.segs.Keys == sc0.segs.Keys && sc.order == sc0.order
    requires SameBut(sc0.segs, sc.segs)
    ensures var r := FocusAll(v, Activate(sc0), sc, targets);
      r.0 == Activate(sc0) && r.1.order == sc0.order && SameBut(sc0.segs, r.1.segs)
    decreases |targets|
  {
    if targets != [] {
      var s := FocusOn(v, Activate(sc0), sc, targets[0]);
      FocusOnKeepsSnapshot(v, sc0, sc, targets[0]);
      FocusAllKeepsSnapshot(v, sc0, s.1, targets[1..]);
    }
  }

  /** One focus click after `activate`: the snapshot stays and only opacity and ambient change. */
  lemma FocusOnKeepsSnapshot(v: Viewer, sc0: Scene, sc: Scene, target: string)
    requires sc.segs.Keys == sc0.segs.Keys && sc.order == sc0.order
    requires SameBut(sc0.segs, sc.segs)
    ensures var r := FocusOn(v, Activate(sc0), sc, target);
      r.0 == Activate(sc0) && r.1.order == sc0.order && SameBut(sc0.segs, r.1.segs)
  {
    var f := Activate(sc0);
    var s := FocusOn(v, f, sc, target);
    assert s.0 == f by {
      if |f.snapshot| == 0 {
        assert f.snapshot.Keys == {};
        assert Activate(sc).snapshot.Keys == {};
      }
    }
    forall n | n in sc0.segs
      ensures s.1.segs[n] == sc0.segs[n].(props := sc0.segs[n].props.(opacity := s.1.segs[n].props.opacity,
                                                                      ambient := s.1.segs[n].props.ambient))
    {
      assert s.1.segs[n] == Highlight(v, f, n, target, sc.segs[n]);
    }
  }

  /**
   * The focus round trip: activate, any number of clicks, deactivate. Every
   * segment gets back the ambient it had before focus mode; in the heart,
   * dental and musculoskeletal viewers its opacity too, and in the brain
   * viewer the user-set opacity of the registry entry. Nothing else changes.
   */
  lemma FocusRoundTrip(v: Viewer, sc: Scene, targets: seq<string>)
    ensures var mid := FocusAll(v, Activate(sc), sc, targets);
      var r := Deactivate(v, mid.0, mid.1);
      r.0 == Inactive && r.1.order == sc.order && r.1.segs.Keys == sc.segs.Keys &&
      forall n :: n in sc.segs ==>
        r.1.segs[n] == sc.segs[n].(props := sc.segs[n].props.(
          opacity := if v == Nervous then sc.segs[n].opacity else sc.segs[n].props.opacity))
  {
    assert SameBut(sc.segs, sc.segs) by {
      forall n | n in sc.segs ensures sc.segs[n] == sc.segs[n].(props := sc.segs[n].props.(
        opacity := sc.segs[n].props.opacity, ambient := sc.segs[n].props.ambient)) {
      }
    }
    FocusAllKeepsSnapshot(v, sc, sc, targets);
    var mid := FocusAll(v, Activate(sc), sc, targets);
    var r := Deactivate(v, mid.0, mid.1);
    forall n | n in sc.segs
      ensures r.1.segs[n] == sc.segs[n].(props := sc.segs[n].props.(
        opacity := if v == Nervous then sc.segs[n].opacity else sc.segs[n].props.opacity))
    {
      assert mid.0.snapshot[n] == Snap(sc.segs[n].props.opacity, sc.segs[n].props.ambient);
      assert r.1.segs[n] == Restore(v, mid.0.snapshot[n], mid.1.segs[n]);
    }
  }
}
