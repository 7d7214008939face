# Animation and bookkeeping core of four anatomy viewers

This is a Dafny model of the logic inside four PyQt/VTK viewers: the heart viewer (`cardiovascular_system.py`), the dental viewer (`dental_system.py`), the musculoskeletal viewer (`musculoskeletal_system.py`) and the brain viewer (`nervous_system.py`). The logic lives under the widgets and timer callbacks:

- the ECG cycle engine;
- the per-segment heartbeat glow and scaling;
- the dental tooth flash, the jaw hinge and the callback chain that orders them;
- the musculoskeletal stair-climb sequencer and its motor signal;
- the brain's surface pathway scheduler;
- camera flights with their tunnel clip plane;
- the octant clipping planes;
- focus mode;
- the name classifiers that give each loaded segment its group and colour.

Every segment is a record: colour, ambient, diffuse, specular, specular power, opacity, user transform, visibility, clip planes and bounds. The registry is a `Scene`: the segment names in dictionary insertion order, plus a map from name to record. Each timer callback is a pure `Tick` function from state to state. Each `QTimer.singleShot` is an explicit pending event that the environment delivers later. Each completion closure is a constructor of a datatype that the animator hands back when it finishes.

Nothing numeric is computed here. `exp`, `sin`/`cos`, `sqrt`, `** 0.5`, `** 1.5`, vector norms, `vtkMath::Perpendiculars` and the camera spline interpolator are function-typed parameters. The properties that need them assume only what is stated in named predicates:

- `Geometry.TrigSane`: cos 0 = 1, sin 0 = 0, cos π = −1, and both functions lie in [−1, 1];
- `Geometry.SqrtSane`: the root maps [0, 1] into [0, 1];
- `BrainSignal.MathsSane`: norms are non-negative, and x² ≤ x^1.5 ≤ x on [0, 1];
- `Ecg.KernelSane`: the Gaussian kernel lies in (0, 1];
- `Flight.NormSane`: a non-zero vector has a positive norm.

Wall-clock time is a parameter too.

Modules follow the programs:

| Module | What it models |
|---|---|
| `Text`, `Geometry`, `Scene` | shared definitions; `Scene` is also `SegmentManager` |
| `Ecg`, `Heart`, `HeartTour` | the heart viewer |
| `Focus`, `Flight`, `Clipping` | the four copies of `FocusNavigator`, the flights and dives, and `apply_advanced_clipping` in the heart and dental viewers |
| `DentalSignal`, `Jaw`, `DentalSequence` | the dental viewer |
| `MuscleSignal`, `StairClimb` | the musculoskeletal viewer |
| `BrainSignal`, `BrainGroups` | the brain viewer |

### Where the design description and the code disagree (the model follows the code)

- **ECG cues at 70 bpm.** The design description orders the cues atrial then ventricular. In the code the phase starts at 0, so the ventricular cue fires first, about 0.16 of a cycle after start. The first atrial cue waits for the first wrap, which comes a full cycle in. `Ecg.Advance` states the cues exactly as the code derives them.
- **Clip planes after a flight.** The description restores each segment's clip planes. The code gives every mapper an empty plane collection, which removes all planes, including any octant planes set earlier (`Flight.Tick`, `Flight.StopFlight`).
- **The spiral dive.** The description has one narrowing spiral. The heart viewer narrows it by `1 - t`. The musculoskeletal and brain viewers keep the radius constant. The dental viewer has no dive (`Flight.DiveKey`, `Flight.DivePoliciesAgree`).
- **Transform order in the stair climb.** `Concatenate(anim)` followed by `Concatenate(original)` applies the recorded transform to a point first and the bend second (`StairClimb.Bent`).
- **The brain's trailing window.** Frames in the last region's trailing transition window match no branch of the region scan, so region 0 is shown at full weight. Nothing fades back to it (`BrainSignal.Trailing`).
- **Colour after a brain signal.** Stopping a brain signal paints every segment with its `original_color`, which is the colour it was loaded with. It does not paint the colour the segment had before the signal started (`BrainSignal.StartRunStop`).

### Code as written and its corrections

Every composite member models the handlers as the code runs them. That includes the handlers listed under "## Findings" below. Each correction is a separate member with its own name, or the value `Corrected` of the `Scene.Variant` parameter `how`. The corrected members are proved to have the property the code evidently intended:

- `Flight.Tick` sets the heart viewer's tunnel plane as written. `Flight.TickCorrected` sets the corrected plane.
- `HeartTour.StopTour` and `HeartTour.TourTick` restore the vessels with the saved fraction times 100, as written. `HeartTour.StopTourCorrected` and `HeartTour.TourTickCorrected` pass the fraction itself.
- `HeartTour.SetTypeOpacityUi` re-applies focus as written (a fresh snapshot) when `how` is `AsWritten`. With `Corrected` it keeps the snapshot.
- `StairClimb.Run` and every tick and delivery take `how`. `AsWritten` stops each signal without putting its specular power back; `Corrected` puts it back. `StairClimb.StopAsWritten` is `stop` as written. `StairClimb.Stop` also cancels the scheduled change and restores the specular power.
- `DentalSequence.Step` runs the jaw callback before the last jaw frame and uses the reset that leaves the buttons disabled. `DentalSequence.StepCorrected` draws the frame first and uses the reset that enables the buttons.
- `BrainSignal.UpdateN` repeats `BrainSignal.UpdateAsWritten`, whose frame counter truncates. `BrainSignal.Update` keeps the fraction.

## Model

| member | source | states |
|---|---|---|
| Text.FirstMatch | cardiovascular_system.py:1411-1417 | the index of the first key, in list order, that occurs in the name ignoring case, and None exactly when no key occurs |
| Text.FirstMatchIs | cardiovascular_system.py:1414-1416 | a key that occurs, with no earlier key occurring, is the one the search returns |
| Geometry.AboutFixesPivot | musculoskeletal_system.py:493-505 | `T(p)·R·T(−p)` with a pure rotation leaves the pivot p where it is |
| Geometry.ScaleAbout | cardiovascular_system.py:1876-1879 | scaling by k about a centre fixes the centre and maps q to c + k·(q − c) |
| Geometry.UnionAll | dental_system.py:2304-2320 | the union of a non-empty list of boxes contains every box, and its x extent is taken from boxes in the list |
| Scene.AddSegment | cardiovascular_system.py:170-199 | registering keeps the registry well formed, adds the name (at the end only when new), leaves the other entries alone, and stores the colour, opacity, visibility, original ambient and original centre |
| Scene.SetOpacity | cardiovascular_system.py:200-204 | only the named segment changes, and both the stored and the drawn opacity become the value |
| Scene.SetVisibility | cardiovascular_system.py:205-209 | only the named segment's visibility changes |
| Scene.SetColor | cardiovascular_system.py:210-214 | only the named segment changes, and both the stored and the drawn colour become the value |
| Scene.SegmentsOfSystem | cardiovascular_system.py:218-220 | a name is listed exactly when it is registered with that system |
| Scene.MixBetween | dental_system.py:221-223 | a blend with weight in [0, 1] lies channel by channel between the two colours, and weight 0 gives the first colour back |
| Ecg.Init | cardiovascular_system.py:77-95 | a new engine is valid, starts at phase 0 and runs at 70 bpm |
| Ecg.Advance | cardiovascular_system.py:101-124 | after a tick the rate is the slider's bpm, the cycle is 60/bpm and the phase lies in [0, cycle]; the atrial cue fires exactly on a wrap, which resets the phase to 0 and silences the ventricular cue; otherwise the phase grows by 1/fs, and the ventricular cue fires exactly when the normalised phase crosses 0.16 |
| Ecg.Update | cardiovascular_system.py:101-157 | the sample carries the tick's two cues, and both contraction scales lie in (0, 1] |
| Ecg.VentricularAtMostOncePerBeat | cardiovascular_system.py:116-124 | at a constant rate, between two ventricular cues there is always an atrial cue (a wrap) |
| Ecg.VentricularEachBeat | cardiovascular_system.py:116-124 | at a constant rate whose step is shorter than the part of the cycle after 0.16, every beat between two wraps has a ventricular cue |
| Ecg.FirstCrossing | cardiovascular_system.py:120-124 | a run of ticks without a wrap that starts below 0.16 and ends at or above it contains a tick whose ventricular cue fires |
| Ecg.PhaseGrows | cardiovascular_system.py:109-110 | without a wrap the phase never decreases from one tick to a later one |
| Heart.DetectType | cardiovascular_system.py:1400-1410 | the part type from the lower-cased name by fixed priority: ventricle, then atrium, then aorta or artery, then cava or vein, else Other |
| Heart.DetectTypeIgnoresCase | cardiovascular_system.py:1401-1402 | lower-casing the name first does not change the type |
| Heart.ColorForName | cardiovascular_system.py:1411-1418 | the colour of the first colour key, in declaration order, found in the name, else the default colour |
| Heart.ColorAgreesWithType | cardiovascular_system.py:1400-1418 | the colour picked by key order always equals the colour of the detected type, although the two lists are ordered differently |
| Heart.GlowAmbient | cardiovascular_system.py:1855-1864 | with the ECG on, a chamber's ambient is its original ambient plus its contraction scale times the glow strength; anything else keeps its original ambient |
| Heart.BeatTransform | cardiovascular_system.py:1866-1884 | with the heartbeat on, a chamber whose scale is not 1 gets a scaling about its original centre (the centre stays put); every other case clears the user transform |
| Heart.AnimateSegment | cardiovascular_system.py:1843-1884 | a hidden segment is skipped; a visible one changes only in ambient and user transform |
| Heart.AnimationBounds | cardiovascular_system.py:1855-1872 | with scales in (0, 1], contraction at most 0.3 and glow at most 1, the ambient rises by at most 1 and the scale factor stays in [0.7, 1] |
| Heart.UpdateAnimation | cardiovascular_system.py:1803-1884 | with both flags off nothing changes; otherwise the frame counter and the ECG advance once and every segment is animated from that tick's scales |
| Heart.ResetMeshes | cardiovascular_system.py:1772-1783 | every segment loses its user transform and gets its original ambient back, nothing else |
| Heart.ResetUndoesAnimation | cardiovascular_system.py:1772-1884 | resetting after any animation frame gives the same scene as resetting without it |
| Heart.SetTypeOpacity | cardiovascular_system.py:1908-1922 | every segment whose lower-cased name holds the type's key (with aorta for arteries and cava for veins) gets the opacity; the rest are untouched |
| Heart.SetTypeOpacityOverrides | cardiovascular_system.py:1908-1922 | setting a type's opacity twice is setting it once to the second value |
| Heart.ArteryNamesMatch | cardiovascular_system.py:1911-1921 | every name the classifier calls an artery is moved by the artery opacity slider |
| Focus.Activate | cardiovascular_system.py:237-247 | turning focus on snapshots every segment's opacity and ambient |
| Focus.FocusOn | cardiovascular_system.py:265-290 | inactive, nothing changes; active, the target gets opacity 1 and ambient 0.8 and every other segment the viewer's dim opacity and its snapshot ambient (0.2 if missing); only the heart viewer re-snapshots an empty snapshot |
| Focus.Deactivate | cardiovascular_system.py:248-264 | turning focus off restores each snapshotted segment's ambient and its opacity (from the snapshot, or from the stored opacity in the brain viewer) and empties the snapshot |
| Focus.FocusRoundTrip | nervous_system.py:751-791 | turning focus on, focusing any sequence of segments and turning it off gives every segment back its ambient and opacity (the brain viewer uses the stored opacity) and changes nothing else |
| Focus.FocusAllKeepsSnapshot | dental_system.py:777-819 | focusing any sequence of segments keeps the snapshot and only touches opacity and ambient |
| Clipping.CardioSceneBounds | cardiovascular_system.py:2377-2396 | the heart viewer's scene box contains every actor box, defaults to [−1, 1]³ for an empty scene, and is not flat on any axis once every actor box is well formed |
| Clipping.DentalSceneBounds | dental_system.py:2304-2320 | the dental viewer's scene box is the plain union of the actor boxes, or [0, 1]³ with no actors |
| Clipping.ClipPlanes | cardiovascular_system.py:2410-2433 | one plane per raised hide flag, and none when no flag is raised |
| Clipping.ClipPlanesMeaning | cardiovascular_system.py:2410-2433 | a point survives the planes exactly when, for every raised flag, it lies on the kept side of the cut at min + fraction·(max − min) on that axis |
| Clipping.ClipAll | dental_system.py:2368-2414 | every segment gets the plane list (or no planes when the list is empty), nothing else changes |
| Clipping.CardioApplyClipping | cardiovascular_system.py:2397-2477 | with no flag raised every segment ends up unclipped |
| Clipping.DentalApplyClipping | dental_system.py:2304-2414 | every segment loses its planes before the new ones are set, so with no flag raised it ends up unclipped |
| Clipping.ClippingViewersAgree | dental_system.py:2304-2414 | once the union of the actor boxes is not flat, the dental and heart viewers cut the scene identically |
| Flight.AddKey | cardiovascular_system.py:2039-2051 | adding a keyframe keeps the key times strictly increasing |
| Flight.AddKeyContents | cardiovascular_system.py:2039-2051 | the new key replaces any key at the same time and every other key stays |
| Flight.AddAllAppends | cardiovascular_system.py:2039-2051 | adding keys in increasing time order to an increasing list appends them |
| Flight.CardioTourIgnoresStart | cardiovascular_system.py:2031-2064 | the heart tour starts at its own first key, so the current camera key is overwritten |
| Flight.DentalTourStartsHere | dental_system.py:1732-1757 | the dental tour starts from the current camera and then follows its authored keys |
| Flight.DivePath | cardiovascular_system.py:2077-2121 | a dive path starts with the current camera at time 0 and has ten more keys at times (i + 1)/10 |
| Flight.DiveCirclesAxis | musculoskeletal_system.py:1632-1677 | each dive key's camera lies in the plane through its dive point perpendicular to the surface normal |
| Flight.DiveLooksAhead | nervous_system.py:1466-1511 | each dive key looks at the point 20 units further down the normal and has the cross product as its view-up |
| Flight.ShrinkingDiveEndsOnAxis | cardiovascular_system.py:2089-2121 | the heart viewer's last dive key sits exactly at P − 60·N |
| Flight.DivePoliciesAgree | cardiovascular_system.py:2089-2121 | the narrowing dive differs from the constant one only in the camera's offset from the axis, which is scaled by 1 − t |
| Flight.DurationBounds | cardiovascular_system.py:2131-2140 | slider settings in range give 150–900 ticks in the heart viewer and 30–150 elsewhere |
| Flight.Tick | cardiovascular_system.py:2131-2178 | a tick counts one step. The tick that reaches the duration stops the flight without moving the camera, and drops every clip plane if it was diving. Any other tick moves the camera to the interpolated key and, while diving, sets the viewer's tunnel plane as written |
| Flight.TickCorrected | cardiovascular_system.py:2131-2178 | the tick with the corrected heart tunnel plane: the same flight state, scene and camera as the tick as written, and the same plane in the other three viewers |
| Flight.TickPlane | cardiovascular_system.py:2160-2178 | while a dive goes on, the heart viewer's tick as written installs a plane that clips away the point the camera looks at, and the other viewers' ticks install a plane that clips everything behind the camera |
| Flight.TickCorrectedPlane | cardiovascular_system.py:2160-2178 | with the corrected plane, every viewer's dive tick clips everything behind the camera, and the heart viewer's tick keeps the point the camera looks at |
| Flight.RunCounts | dental_system.py:1764-1800 | k ticks count k steps, and the flight runs on exactly while step + k < duration |
| Flight.FlightLasts | musculoskeletal_system.py:1684-1717 | a flight from step 0 is still running after duration − 1 ticks and has stopped, unclipped, after duration ticks |
| Flight.CardioPlaneKeepsFocal | cardiovascular_system.py:2163-2178 | the corrected heart tunnel plane keeps the point the camera looks at |
| Flight.CardioPlaneClipsBehind | cardiovascular_system.py:2163-2178 | the corrected heart tunnel plane removes everything behind the camera |
| Flight.AheadPlaneClipsBehind | nervous_system.py:1519-1552 | the plane one unit ahead, used by the other viewers, removes everything behind the camera |
| Flight.Launch | dental_system.py:1758-1763 | a flight starts at step 0, running and diving, and clips every segment with the flight plane |
| Flight.StartDive | cardiovascular_system.py:2077-2130 | a dive flies the dive path of the viewer's policy from the current camera and clips every segment |
| Flight.StartDentalTour | dental_system.py:1701-1731 | starting the dental tour leaves focus mode first (restoring its snapshot), then flies the tour with clipping on |
| Flight.StopFlight | dental_system.py:1701-1731 | stopping a flight by hand leaves the camera and step where they are, ends the flight and the dive, and unclips every segment without changing anything else |
| HeartTour.QtClamp | cardiovascular_system.py:1177-1206 | a slider value is clamped into [0, 100] and kept when already inside it |
| HeartTour.NestedSyncIsQuiet | cardiovascular_system.py:1924-1933 | a slider value v in [0, 100] sent back as v/100 puts the slider at v again, so the nested signal stops |
| HeartTour.SliderValueRoundTrip | cardiovascular_system.py:1908-1933 | moving a type's slider to s sets that type's segments to s/100 and leaves the slider at s |
| HeartTour.SetTypeOpacityUi | cardiovascular_system.py:1908-1939 | with either focus re-application, only the type's slider moves, to int(opacity·100) clamped, and segments of other types keep their opacity |
| HeartTour.HandlerAsWrittenKeepsFocusLook | cardiovascular_system.py:1935-1939 | as written, once the slider is already in place, the handler in focus mode re-snapshots the focused look, so leaving focus afterwards gives every segment the ambient it had in focus mode |
| HeartTour.SetTypeOpacityRemembers | cardiovascular_system.py:1908-1939 | with the corrected refocus, an opacity change in focus mode keeps every original ambient in the snapshot and records the new opacity for the changed type |
| HeartTour.FocusExitAfterOpacityChange | cardiovascular_system.py:1935-1939 | focus on, any focusing, a type opacity change, focus off: every segment gets its original ambient back, and the changed type keeps its new opacity |
| HeartTour.StopMotion | cardiovascular_system.py:1954-1985 | stopping all camera motion leaves flight mode and the dive, stops any flight, and unclips the scene only if it was diving |
| HeartTour.StartTour | cardiovascular_system.py:1986-2017 | a tour starts only when recording can start; it records the artery and vein opacities, sets both sliders to 20 and flies the heart tour with clipping on |
| HeartTour.StopTour | cardiovascular_system.py:2018-2029 | stopping the tour as written leaves flight mode, keeps the ventricle and atrium sliders and the saved opacities, and unclips every segment |
| HeartTour.StopTourCorrected | cardiovascular_system.py:2018-2029 | the same stop with the saved fractions passed unscaled: it leaves flight mode, keeps the other sliders and unclips every segment |
| HeartTour.TourTick | cardiovascular_system.py:2131-2159 | a tour tick runs on exactly until the duration without touching the scene or sliders. The last tick of a clipped flight leaves flight mode, then runs the artery and vein handlers with the saved fractions times 100, as written, and unclips every segment |
| HeartTour.TourTickCorrected | cardiovascular_system.py:2131-2159 | the same tick, except that the last one restores the vessels with the saved fractions themselves |
| HeartTour.RestoreVesselsReturns | cardiovascular_system.py:2154-2155 | the corrected restore puts the artery and vein sliders back at their recorded values and the vessels at those opacities |
| HeartTour.TourRoundTrip | cardiovascular_system.py:1986-2029 | a tour started and stopped as written gives back the ventricle and atrium sliders. Each vessel slider is pinned at 100 unless it was saved at 0, every vessel segment is at its slider's fraction, and no segment keeps a clip plane |
| HeartTour.TourRoundTripCorrected | cardiovascular_system.py:1986-2029 | with the corrected stop, starting and stopping a tour gives back all four slider values, puts every vessel at its own slider's fraction and removes every clip plane |
| HeartTour.RestoreVesselsAsWrittenPins | cardiovascular_system.py:2154-2155 | from sliders strictly between 0 and 100, the restore as written leaves each vessel slider at 100, or at 0 if it was saved at 0, and each vessel segment at that slider's fraction |
| HeartTour.TourEndPins | cardiovascular_system.py:2131-2159 | the natural end of a tour, as written, from the tour's sliders at 20: flight mode off, every clip plane gone, the vessel sliders pinned at 100 or 0 and the vessels at those fractions |
| HeartTour.TourEndCorrected | cardiovascular_system.py:2131-2159 | the corrected end of a tour puts both vessel sliders back at their saved values and each vessel at its slider's fraction |
| HeartTour.RestoreVesselsAsWrittenSaturates | cardiovascular_system.py:2154-2155 | a saved artery opacity of at least 0.01 pins the artery slider at 100 and leaves every pure artery segment opaque |
| DentalSignal.Prepare | dental_system.py:105-154 | the prepared records are exactly the visible segments whose lower-cased name holds `tooth`, each a snapshot of its own segment, with distinct names |
| DentalSignal.ToothOf | dental_system.py:112-153 | a lower tooth's band runs from the top of its mesh down, an upper tooth's from the bottom up, and colour, ambient and diffuse are recorded |
| DentalSignal.Restore | dental_system.py:155-164 | each prepared tooth gets its recorded colour, ambient and diffuse back; every other segment is untouched |
| DentalSignal.PrepareThenRestore | dental_system.py:105-164 | restoring right after preparing changes nothing |
| DentalSignal.Intensity | dental_system.py:199-216 | the flash intensity is 0 outside the band and lies in [0, 1] |
| DentalSignal.ToothLookBounds | dental_system.py:199-227 | each colour channel lies between the recorded and the signal colour, ambient rises by at most 0.2 and diffuse by at most 0.1, and a tooth outside the band shows exactly its recorded look |
| DentalSignal.Start | dental_system.py:165-176 | a busy animator ignores the start; an idle one restores the teeth, resets the step and takes the callback |
| DentalSignal.Tick | dental_system.py:177-230 | each tick counts one step; the 75th stops, restores the teeth and hands back the callback; any other tick only repaints the teeth |
| DentalSignal.Stop | dental_system.py:231-236 | stopping ends the flash at once and restores the teeth |
| DentalSignal.RunCounts | dental_system.py:177-230 | a started flash is busy for exactly 75 ticks, only repaints the teeth meanwhile, and shows the recorded look once it ends |
| Jaw.SideOf | dental_system.py:263-272 | a name holding `upper` is upper jaw even if it also holds `lower`; a name holding only `lower` is lower jaw; anything else is neither |
| Jaw.SidesDisjoint | dental_system.py:257-284 | the two jaw lists are disjoint and exclude names that mention neither side |
| Jaw.MeshBounds | dental_system.py:274-282 | the union of the jaw meshes' bounds contains every jaw mesh with points, and is absent when no jaw mesh has points |
| Jaw.Identify | dental_system.py:257-284 | the lists are the jaw parts in registry order, and the pivot is recomputed only when parts exist |
| Jaw.Start | dental_system.py:285-301 | a busy controller ignores the start; without jaw parts nothing starts; otherwise the step resets and the direction and callback are taken |
| Jaw.Count | dental_system.py:302-314 | each tick counts one step with progress clamped at 1; the 30th stops the controller and hands back the callback once, clearing it first |
| Jaw.SmoothRange | dental_system.py:316-321 | the eased progress lies in [0, 1], from 0 at the start to 1 at the end |
| Jaw.FrameAngleEnds | dental_system.py:316-321 | opening runs from 0 to the full angle and closing from the full angle to 0 |
| Jaw.ClosedFrameMatchesReset | dental_system.py:323-364 | at angle 0 both jaw poses leave every point where it is, which is what the reset's cleared transform shows |
| Jaw.OpenLowerPoseMoves | dental_system.py:329-333 | the lower-jaw pose at angle a drops a point by 1.5·a along z before turning it, so the point 1.5·a above the pivot lands on the pivot |
| Jaw.Reset | dental_system.py:352-364 | the reset re-identifies the parts and clears the user transform of every jaw part only |
| Jaw.AddToTree | dental_system.py:1936-1978 | a segment is appended to its group (upper jaw, lower jaw or other), whose label is created on first use, and no other group changes |
| Jaw.TreeGroupsAreJawParts | dental_system.py:1936-1978 | after loading a list of segments, the upper and lower groups hold exactly that list's jaw parts in order |
| DentalSequence.PressSignal | dental_system.py:1446-1465 | refused while either animator is busy; without a visible tooth it stops after preparing; otherwise it disables the buttons and starts the flash |
| DentalSequence.PressJawCycle | dental_system.py:1473-1485 | refused while busy or without jaw parts; otherwise it disables the buttons and starts opening |
| DentalSequence.PressCombined | dental_system.py:1512-1531 | refused while busy, without jaw parts or without a visible tooth, all checked before the buttons are disabled; otherwise it starts the first flash |
| DentalSequence.RunCallback | dental_system.py:1466-1575 | each completion closure does what the panel's nested function does: enable the buttons at a chain's end, otherwise start the chain's next step |
| DentalSequence.StepInv | dental_system.py:1446-1591 | as written, every enabled click, timer tick, reset and slider move keeps the buttons enabled only while nothing animates and never runs both animators at once. A timer tick moves its chain only to the next stage. The stronger invariant (buttons enabled exactly when nothing animates) survives every event except a reset during a jaw movement |
| DentalSequence.LockedStaysLocked | dental_system.py:1437-1441 | as written, once the buttons are disabled with nothing animating, no event of the panel enables them or starts an animator |
| DentalSequence.JawTickAsWrittenInv | dental_system.py:302-344 | the jaw tick as written, with the callback before the frame, keeps the invariant and moves the stage exactly on the movement's last tick |
| DentalSequence.ResetJawAsWrittenInv | dental_system.py:1582-1591 | the reset as written keeps the buttons enabled only while nothing animates, leaves the stage alone when no jaw moves and the panel idle when one does |
| DentalSequence.StepCorrectedInv | dental_system.py:1446-1591 | with the frame drawn before the callback and the corrected reset, every event keeps the buttons enabled exactly while nothing animates, never runs both animators at once, and moves each chain only to its next stage (flash, open, flash, close) |
| DentalSequence.CallbackInv | dental_system.py:1466-1575 | each closure moves its chain to the next stage and keeps the invariant |
| DentalSequence.ResetJawInv | dental_system.py:1582-1591 | the corrected jaw reset keeps the invariant, and a reset during a jaw movement leaves the panel idle |
| DentalSequence.LastFrameShowsEnd | dental_system.py:302-344 | with the frame drawn before the callback runs, the last frame of every movement shows where it ends: full angle after opening, 0 after closing |
| DentalSequence.SetJawAngle | dental_system.py:1576-1580 | the angle slider sets the controller's angle only |
| MuscleSignal.Create | musculoskeletal_system.py:43-69 | a signal records the segment's colour, ambient, diffuse and specular and its mesh bounds, and starts its sweep now |
| MuscleSignal.Restarted | musculoskeletal_system.py:74-78 | a sweep older than 1.2 s restarts now |
| MuscleSignal.ProgressRange | musculoskeletal_system.py:74-80 | with time not running backwards the sweep progress lies in [0, 1], and an expired sweep is at 0 |
| MuscleSignal.SweepEnds | musculoskeletal_system.py:82-88 | the band starts at the top of the mesh and ends at the bottom |
| MuscleSignal.Update | musculoskeletal_system.py:71-122 | a tick restarts an expired sweep and repaints a segment with points from its mean height's distance to the band; a segment without points keeps its look |
| MuscleSignal.UpdateBounds | musculoskeletal_system.py:102-120 | each colour channel lies between the recorded and the signal colour, ambient in [0.1, 0.5], diffuse in [0.7, 0.8], specular in [0.3, 0.6], specular power in [10, 20], and outside the band the colour is exactly the recorded one |
| MuscleSignal.StopRestores | musculoskeletal_system.py:546-554 | with specular power restored as well, stopping a signal on a segment that differs from its recorded state only in the properties the update paints gives the segment back unchanged |
| StairClimb.FindLeg | musculoskeletal_system.py:258-356 | a leg's moving parts are exactly the registered names with the side prefix whose stripped part is a listed bone, cartilage or muscle; its signal parts are the side's names other than pelvis, sacrum and coccyx |
| StairClimb.Pivot | musculoskeletal_system.py:330-356 | the knee pivot is absent exactly when the side has neither the distal femur cartilage nor the femur |
| StairClimb.PivotPartsStay | musculoskeletal_system.py:272-356 | the parts that give the pivot never move with the leg |
| StairClimb.RunSuffix | musculoskeletal_system.py:485-487 | a state name ends in `_RUN` exactly for the two signal-run phases |
| StairClimb.Start | musculoskeletal_system.py:357-400 | refused unless idle; the sequence starts, at the left signal, only when both legs have moving parts, a pivot and signal parts, and only then are the moving parts' transforms recorded |
| StairClimb.StartRecords | musculoskeletal_system.py:387-397 | a successful start records, for exactly the moving parts of both legs, the transform each had (identity if none) |
| StairClimb.BendLasts | musculoskeletal_system.py:462-480 | each bending phase lasts Frames + 1 ticks and then passes to the next phase |
| StairClimb.BendFixesKnee | musculoskeletal_system.py:493-505 | the bend leaves the knee pivot where it is |
| StairClimb.BendAtRest | musculoskeletal_system.py:493-505 | the bend at progress 0 leaves every point where it is |
| StairClimb.Deliver | musculoskeletal_system.py:485-492 | the deferred event changes the phase only during a signal run, then resets the step and stops the signals |
| StairClimb.StepShape | musculoskeletal_system.py:411-492 | every tick and every deferred event keeps the phase machine's shape (legs complete and recorded while climbing, one pending move-up exactly during a signal run) and moves it only to its next phase; a delivered event is always the running side's own move-up |
| StairClimb.StopAsWritten | musculoskeletal_system.py:401-410 | `stop` as written ends the sequence and clears the records and the signals, but keeps the scheduled change |
| StairClimb.Stop | musculoskeletal_system.py:401-410 | the corrected stop ends the sequence and clears the records, the signals and the scheduled change. Its scene differs from the one the stop as written leaves only in the specular power of the parts that had a signal, which gets its recorded value back |
| StairClimb.ClimbThenStop | musculoskeletal_system.py:357-554 | as written, a start, any sequence of ticks and deferred events, and a stop give back every segment as it was before the start. The moving parts hold their recorded transform. A part that showed a signal may keep the specular power last painted, and every other part keeps its own |
| StairClimb.ClimbThenStopCorrected | musculoskeletal_system.py:357-554 | with the corrected signal stops and the corrected stop, the round trip gives back every segment exactly, except that the moving parts hold their recorded transform |
| StairClimb.BendEndsAtRest | musculoskeletal_system.py:462-480 | the first frame of going up and the last of going down draw each moving part at its recorded pose |
| StairClimb.KneeStays | musculoskeletal_system.py:493-517 | a moving part's point that the recorded pose puts on the knee stays on the knee in every bending frame |
| StairClimb.FinishKeepsRecords | musculoskeletal_system.py:473-480 | the natural end of the sequence goes idle but keeps the recorded transforms |
| StairClimb.RotateUnowned | musculoskeletal_system.py:2249-2259 | the precise rotation sets the transform of every segment the stair climb does not hold, and no other |
| StairClimb.ResetUnowned | musculoskeletal_system.py:2261-2271 | the rotation reset clears the transform of every segment the stair climb does not hold, and no other |
| StairClimb.RotationSparesLegs | musculoskeletal_system.py:2249-2271 | while a climb runs, the rotation controls leave the moving leg parts alone |
| StairClimb.StopReleasesLegs | musculoskeletal_system.py:2249-2271 | after a stop the rotation controls reach every segment again |
| BrainSignal.PathwaysValid | nervous_system.py:502-547 | each of the three pathways has regions, a positive total length and positive radii |
| BrainSignal.TotalIsStart | nervous_system.py:622 | the cycle length equals the start of the (missing) region after the last |
| BrainSignal.Scan | nervous_system.py:626-647 | the region scan yields indices inside the pathway, a next region that is the current one or the one after, blend 0 when they are the same, and a blend in [0, 1) |
| BrainSignal.StageOf | nervous_system.py:622-647 | the stage of any frame (taken modulo the cycle length) has indices inside the pathway and a blend in [0, 1) |
| BrainSignal.Dwell | nervous_system.py:636-640 | inside region i's dwell window the stage is region i alone with blend 0 |
| BrainSignal.Crossing | nervous_system.py:641-645 | inside the transition after region i (not the last), the stage blends i into i + 1 by the frames since the dwell ended over the transition length |
| BrainSignal.Trailing | nervous_system.py:626-647 | in the last region's trailing window the stage is region 0 alone with blend 0 |
| BrainSignal.Influence | nervous_system.py:661-677 | a region's influence is at least 0, at most 1 for a real distance, and 0 exactly when the distance reaches the radius |
| BrainSignal.Pulse | nervous_system.py:649 | the pulse lies in [0.7, 1] |
| BrainSignal.StrengthRange | nervous_system.py:649-690 | the blended, pulsed and shaped strength lies in [0, 1] |
| BrainSignal.FarIsDark | nervous_system.py:661-690 | a segment outside the regions of its stage gets strength 0 |
| BrainSignal.CentreGlows | nervous_system.py:661-690 | a segment at the centre of a dwelling region glows (strength above 0.01) |
| BrainSignal.Paint | nervous_system.py:691-717 | above strength 0.01 the segment glows with opacity raised by 0.2·strength up to 1; otherwise it gets its recorded colour and stored opacity back; nothing but the drawn properties changes |
| BrainSignal.PaintBounds | nervous_system.py:691-717 | a painted segment's opacity lies between its stored opacity and 1, and a glowing colour's channels lie in [0, 1.5] |
| BrainSignal.Restore | nervous_system.py:572-598 | a stopped segment gets the colour given and, from its snapshot, ambient, diffuse, specular and specular power, with its stored opacity |
| BrainSignal.DarkFrameIsRestore | nervous_system.py:706-717 | a frame at strength 0.01 or below draws a recorded segment exactly as the stop does |
| BrainSignal.Stop | nervous_system.py:572-598 | stopping restores every recorded segment, leaves the others alone, clears both snapshots and the active pathway |
| BrainSignal.StopTwice | nervous_system.py:572-598 | a second stop changes nothing |
| BrainSignal.StartAnimation | nervous_system.py:549-571 | an unknown pathway changes nothing; a known one stops first, then snapshots every segment's original colour and look and starts at frame 0 |
| BrainSignal.SetSpeed | nervous_system.py:739-741 | the speed is clamped into [0.1, 5] and kept when already inside it |
| BrainSignal.BrainBounds | nervous_system.py:721-737 | the brain box is never inverted along x, so the update's guard never fires, and contains every actor box once some box is not inverted along x |
| BrainSignal.UpdateScene | nervous_system.py:600-717 | a frame changes only drawn properties, and nothing while no pathway runs |
| BrainSignal.UpdateBounds | nervous_system.py:651-717 | a frame keeps each opacity between the stored one and 1, and each colour either the recorded one or within [0, 1.5] |
| BrainSignal.AdvanceAgrees | nervous_system.py:719 | with whole-number speeds the corrected counter and the counter as written agree |
| BrainSignal.TenTicksMove | nervous_system.py:719 | with the corrected counter, every speed the slider allows moves the frame within ten ticks |
| BrainSignal.StartRunStop | nervous_system.py:549-719 | start, any number of frames and stop clear the animator and give every segment back as the start left it, painted with its original colour at its stored opacity |
| BrainGroups.FirstGroup | nervous_system.py:1759-1767 | the first group in table order with a keyword in the name, and none exactly when no group matches |
| BrainGroups.InfoIsFirstMatch | nervous_system.py:1759-1769 | a group that matches, with no earlier group matching, is the one a segment is filed under |
| BrainGroups.InfoIsDefault | nervous_system.py:1759-1769 | a segment falls in Other exactly when no group's keyword occurs in its lower-cased, underscore-free name |
| BrainGroups.VentricleBeforeCortex | nervous_system.py:814-825 | any name mentioning a ventricle is filed under the ventricles, whatever lobe it also names |
| BrainGroups.Load | nervous_system.py:1751-1772 | loading registers the segment with the group and colour from its name, opacity 1 and visible; the other entries stay |
| BrainGroups.GroupOpacity | nervous_system.py:1938-1944 | every segment of the group gets opacity value/100, the rest are untouched |
| BrainGroups.LoadedFollowsItsGroup | nervous_system.py:1938-1944 | a loaded segment follows its own group's slider and ignores the others |
| BrainGroups.GroupOpacityCommutes | nervous_system.py:1938-1944 | the sliders of two different groups commute |
| BrainGroups.GroupOpacityIdempotent | nervous_system.py:1938-1944 | moving a group slider twice to the same value is moving it once |

## Left out

- Widgets, stylesheets, dialogs, tree views, labels and status messages are UI wiring. So are the sliders' own plumbing beyond the values they send, `set_animation_buttons_enabled` beyond the one enabled flag, and the tree-slider syncing of the brain's `update_group_opacity`.
- VTK itself is foreign library code:
  - readers, smoothing and normal filters, mappers, picking and `Render()`;
  - `vtkCameraInterpolator` splines, which are a parameter `interp`;
  - `vtkMath::Perpendiculars`, which is a parameter `perp`;
  - `GetDirectionOfProjection`, which is the normalised focal-minus-position direction with the norm as a parameter.
- `CurvedMPRDialog` (volume loading and resampling), `SpeechThread`, sound playback and video recording are I/O and concurrency. `main.py` launches processes.
- The numeric values of `exp`, `sin`, `cos`, `sqrt`, powers, norms and the ECG noise are parameters. Only the assumptions named above are used.
- Floating-point rounding is left out. Reals are exact. Python's `int()` is modelled as truncation toward zero where the code uses it: the brain frame counter and the slider positions.
- `time.time()` is a parameter `now`. The stair climb's signals share one `now` per tick.
- The stair climb's `vtk_widget` None check and the message boxes shown on a refused start are left out.
- Camera orbit, rotation animation, saving and loading views, quality, shading, edge and colour-preset toggles, the master opacity slider and the demo loaders are plain setter loops outside this core.
- The `segment_groups` dictionaries of all four viewers are left out. Each viewer only fills and clears its copy (cardiovascular_system.py:168, 196, 223; dental_system.py:43, 58, 87; musculoskeletal_system.py:129, 144, 173; nervous_system.py:42, 57, 87). The one reader, `get_segments_by_system` (musculoskeletal_system.py:165-166), has no caller. `Scene.SegmentsOfSystem` models the lookup by the stored system instead.
- The brain's pathway descriptions are display-only.
- `ClippingDialog.get_params` is reduced to the `ClipParams` record it returns.
- BrainSignal.UpdateBounds: does not give the exact glow colour, only its range. The colour mixes the pathway colour at four times the strength, and its exact value rests on the shaped strength, which is a parameter.
- Ecg.Update: does not state the ECG trace value, which is the sum of five Gaussian bumps plus noise; only the two contraction scales are bounded.
- MuscleSignal.Create: the record also keeps the segment's specular power, which `create_neural_signal` does not take. Only the corrected stops (`MuscleSignal.Stop`, and `StairClimb` with `Corrected`) read it. The stop as written never does.
- Flight.Tick: the tunnel plane is stated through the interpolated camera, which is a parameter. The spline values themselves are not modelled.

## Findings

| source | as written | input that shows it | evidently intended | confidence | as-written member | corrected member |
|---|---|---|---|---|---|---|
| musculoskeletal_system.py:401-491 | `stop()` stops the timer but not the pending `QTimer.singleShot`, and `_advance_state_to` checks only that the state ends in `_RUN` | stop during `SIGNAL_RIGHT_RUN`, start again within 1.2 s: the stale `MOVE_RIGHT_UP` lands during `SIGNAL_LEFT_RUN` and the left leg never bends | a stop cancels the pending change, or the change checks which run it belongs to | high (not executed) | StairClimb.StaleChangeSkipsLeftLeg | StairClimb.StepShape |
| dental_system.py:307-321 | the completion callback runs before the last frame is drawn, and the frame reads the direction as the callback left it | the automatic jaw cycle: the last opening frame is drawn with the closing direction, at angle 0, so the jaw snaps shut before it closes | the last opening frame shows the jaw fully open | high (not executed) | DentalSequence.LastOpeningFrameAsWritten | DentalSequence.LastFrameShowsEnd |
| nervous_system.py:719 | `current_frame = int(current_frame + signal_speed)` | speed slider at 50 gives speed 0.5; every update truncates 0.5 back to 0, so the frame stays 0 and the signal never moves | the frame advances by the speed, which the slider allows between 0.1 and 3 | high (not executed) | BrainSignal.HalfSpeedFreezes | BrainSignal.TenTicksMove |
| musculoskeletal_system.py:546-554 | the stop restores colour, ambient, diffuse and specular but not the specular power the update sets | any segment with specular power outside [10, 20] (the viewer loads with 30): after one signal it keeps a power between 10 and 20 | the stop restores every property the update paints | high (not executed) | MuscleSignal.StopAsWrittenLosesSpecularPower | MuscleSignal.StopRestores |
| cardiovascular_system.py:2154-2155 | after a tour the vessels are restored with `set_type_opacity(type, original * 100)` | a recorded artery opacity of 0.3 is passed as 30.0: the arteries become opaque and the slider sticks at 100 | pass the recorded fraction, as the other calls of `set_type_opacity` do | high (not executed) | HeartTour.RestoreVesselsAsWrittenSaturates | HeartTour.RestoreVesselsReturns |
| cardiovascular_system.py:2169-2178 | the heart viewer's tunnel plane sits at the camera with the backward normal | a camera at the origin looking down −z: the plane keeps only what is behind the camera and clips away the point it looks at | the plane keeps what lies ahead of the camera, as in the other three viewers | high (not executed) | Flight.CardioPlaneAsWrittenExample | Flight.CardioPlaneKeepsFocal |
| cardiovascular_system.py:1935-1939 | while focus is on, `set_type_opacity` calls `activate()` again, which snapshots the dimmed and highlighted look | focus on the aorta (ambient 0.8), then move the artery slider: leaving focus leaves the aorta at ambient 0.8 instead of 0.2 | keep the snapshot from when focus was turned on, updating only the changed opacities | high (not executed) | HeartTour.RefocusAsWrittenForgets | HeartTour.FocusExitAfterOpacityChange |
| dental_system.py:1582-1591 | `reset_jaw_position` stops the jaw timer and drops the pending callback without enabling the buttons | press the jaw cycle, then reset while it opens: nothing animates and the three buttons stay disabled until the model is reset (`reset_current_model` enables them again, dental_system.py:2138-2148) | the reset leaves the buttons enabled when nothing is left running | high (not executed) | DentalSequence.ResetAsWrittenLocksButtons | DentalSequence.ResetJawInv |
