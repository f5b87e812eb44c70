# Pan/zoom engine and scan panel

This is a Dafny model of two parts of a zoo-map web app. The first is the
pan/zoom/inertia engine of the map viewer (`app.js`). The second is the
panel logic of the AR scan page (`scan/scan.js`).

## The map engine

The engine keeps one mutable state record with two transforms (scale plus
translation):

- the *target* transform, which the input handlers set;
- the *rendered* transform, which each animation frame moves towards the
  target.

The record also holds the drag session, the pinch session and the coasting
velocity.

- `pan_zoom.dfy` (module `PanZoom`): the pure geometry.
  - `Clamp`;
  - the legal pan range for a scale (`GetPanBounds`);
  - clamping a translation into that range (`ClampPan`);
  - the conversions between client and image coordinates;
  - the zoom step about an anchor point, which the wheel and pinch handlers
    share (`ZoomAt`).
- `decay.dfy` (module `Decay`): powers of a real factor and a Bernoulli-style
  bound. It shows that `e * q^n` falls below any `eps > 0` for some n.
- `inertia.dfy` (module `Inertia`): coasting.
  - The velocity is multiplied by 0.92 per frame.
  - Coasting stops, with the velocity exactly zero, at the first frame where
    both components are below 0.03.
  - Coasting always stops.
- `smoothing.dfy` (module `Smoothing`): how one frame eases the rendered
  transform.
  - The lerp factor is 0.5 during a gesture, else 0.2 for position and 0.18
    for scale.
  - The transform snaps onto the target once the summed residual is below
    0.0005.
  - A frame never overshoots, and the target is reached after finitely many
    frames.
- `map_view_state.dfy` (module `MapViewState`): the engine's state record as
  a value `View`, with one transition function per handler.
  - Each handler is composed of small steps that follow the handler's
    statements.
  - Their contracts, multi-frame lemmas and the invariant over all events are
    stated here.
- `map_view.dfy` (module `MapViewEngine`): the engine as the page runs it.
  - Class `MapView` has one mutable field per state field.
  - Its methods update the fields in place.
  - Each method is proved to perform exactly its transition:
    `Snapshot() == F(old(Snapshot()), ...)`.
  - `Animate` is a single frame, without the `requestAnimationFrame`
    rescheduling.

The engine re-reads the page at every call: the viewport rectangle and the
image's natural size. In the model these are a `Geometry` parameter. Event
coordinates, timestamps and the finger distance of a pinch are parameters
too.

## The scan panel

`scan_panel.dfy` (module `ScanPanel`) models the active card, the fact index
and the set of collected card ids.

- It covers the button enable rules and the index arithmetic of the
  previous/next buttons. That arithmetic uses JavaScript's truncating `%`,
  written out as `JsRem`.
- It covers `showCard`, `clearCard`, the collect handler and the
  target-found/lost updates.
- The panel is modelled as values first, then as class `Panel`, whose
  handlers are proved against those values.
- The invariant: the fact index is always a valid index into the active
  card's facts, so rendering reads in range.

## Model

| member | source | states |
|---|---|---|
| PanZoom.Clamp | app.js:1 | The result lies in [lo, hi]. It equals n inside the range and the nearer end outside it. On an empty range the lower end wins. |
| PanZoom.ClampIdempotent | app.js:1 | Clamping twice is clamping once. |
| PanZoom.ClampIsNearest | app.js:1 | The clamped value is the point of [lo, hi] closest to n. |
| PanZoom.AxisRange | app.js:57-77 | One axis of the pan range is never empty. An image that fits is pinned at the centring offset. A larger one ranges over [view - scaled - pad, pad]. |
| PanZoom.GetPanBounds | app.js:48-80 | The bounds are ordered: minTx <= maxTx and minTy <= maxTy, for any sizes and scale. |
| PanZoom.PanBoundsShape | app.js:48-80 | The exact bounds per axis: min = max = (view - scaled) / 2 when the image fits. Otherwise max = pad and min = view - scaled - pad. The padding is 16/20 below a 760 px viewport width, else 24/28. |
| PanZoom.ClampPan | app.js:82-86 | The translation part of clampTargetsToBounds. The scale is kept and the translation ends in the range. A translation already in range is unchanged. |
| PanZoom.ClampPanIdempotent | app.js:82-86 | Clamping the pan a second time changes nothing. |
| PanZoom.PanRangeKeepsImageInView | app.js:48-80 | Any legal translation leaves at most the edge padding uncovered on either side of an image larger than the viewport. It centres an image that fits. |
| PanZoom.FittingImageIsCentred | app.js:57-79 | An image that fits both axes has exactly one legal translation, the centring one. |
| PanZoom.ClientFromWorld | app.js:104-109 | Drawing a point can be undone: for a non-zero scale the image point is recovered from the drawn point as ((cx - tx) / scale, (cy - ty) / scale). |
| PanZoom.WorldFromClient | app.js:93-102 | clientFromWorld undoes worldFromClient for the same transform, up to the viewport origin: the result is (cx - left, cy - top). |
| PanZoom.WorldClientRoundTrip | app.js:93-109 | The other direction: drawing an image point and reading it back through the viewport origin returns the point. |
| PanZoom.ZoomAt | app.js:326-335 | The zoom step of the wheel and pinch handlers produces the requested scale. |
| PanZoom.ZoomAtKeepsAnchor | app.js:326-335 | The image point under the anchor is still under it after the zoom step. |
| Inertia.DecayStep | app.js:477-491 | Idle momentum is unchanged. Coasting momentum is multiplied by 0.92. If both components are then below 0.03, coasting is off and the velocity is exactly (0, 0). |
| Inertia.DecayedIsPow | app.js:481-482 | n frames of friction multiply a velocity component by 0.92^n. |
| Inertia.DecayedVec | app.js:481-482 | The velocity after n frames of friction is v * 0.92^n. |
| Inertia.CoastingDichotomy | app.js:477-491 | After n frames, either coasting has ended with zero velocity, or it goes on at v * 0.92^n, which is not yet negligible. |
| Inertia.DecaysGeometrically | app.js:477-491 | While no frame's velocity is negligible, the velocity after n frames is v * 0.92^n and coasting continues. |
| Inertia.StopsAtFirstNegligibleFrame | app.js:486-490 | Coasting ends exactly at the first frame whose decayed velocity is below 0.03 in both axes, with velocity (0, 0). |
| Inertia.IdleStaysIdle | app.js:477 | Momentum that is not coasting never changes. |
| Inertia.DecayedBecomesNegligible | app.js:486 | Some frame count n >= 1 makes v * 0.92^n negligible. |
| Inertia.EventuallyStops | app.js:477-491 | Coasting from any velocity stops after finitely many frames, with velocity exactly (0, 0). |
| Smoothing.Approach | app.js:493-498 | Each component keeps (1 - factor) of its distance from the target: 0.5 during a gesture, else 0.2 for position and 0.18 for scale. |
| Smoothing.Settle | app.js:493-509 | After the snap, the rendered transform is on the target or still at least 0.0005 away. It snaps exactly when the eased transform is within 0.0005. |
| Smoothing.SettleFixedPoint | app.js:493-509 | A rendered transform on its target stays on it. |
| Smoothing.ApproachContracts | app.js:493-498 | Easing removes at least 18% of the summed residual each frame. |
| Smoothing.SettleNeverRecedes | app.js:493-509 | A frame never increases the residual. |
| Smoothing.SettleNeverOvershoots | app.js:493-509 | A frame never passes the target: each component of the rendered transform ends between its old value and the target's. |
| Smoothing.SettleStep | app.js:493-509 | A frame from residual at most b ends on the target or within 0.82 * b. |
| Smoothing.ShrunkBelow | app.js:505 | Any residual shrinks below the 0.0005 snap threshold within finitely many frames. |
| Smoothing.SettleProgress | app.js:493-509 | After n frames the rendered transform is on the target or within 0.82^n of the initial residual. |
| Smoothing.ReachesTarget | app.js:493-509 | For a fixed target, the rendered transform reaches it exactly after finitely many frames. |
| Smoothing.StaysOnTarget | app.js:505-509 | Once on the target, the rendered transform stays there for any number of frames. |
| MapViewState.Initial | app.js:3-25 | The initial target is scale 1 at translation (0, 0), inside the zoom range. Rendered equals target, and there is no drag, pinch or coasting. |
| MapViewState.ClampTargets | app.js:82-86 | clampTargetsToBounds changes only the target translation. The target ends up legal for its scale, and a legal target is left alone. |
| MapViewState.ClampTargetsIdempotent | app.js:82-86 | Clamping the targets twice is clamping once. |
| MapViewState.FitTarget | app.js:303-308 | The fit scale min(vw / iw, vh / ih) is clamped to [0.18, 1.2]. The target is legal for that scale. |
| MapViewState.Fit | app.js:298-319 | fitToViewportOnce does nothing when either image dimension is 0. Otherwise the target is the fit target and legal, rendered equals target, the velocity is (0, 0) and coasting is off. Gesture state is untouched and the zoom-range invariant is kept. |
| MapViewState.FitScaleFits | app.js:303 | At or below the fit scale the image fits both axes. |
| MapViewState.FitShowsWholeImage | app.js:298-317 | When the fit scale is at least 0.18, the whole image is inside the viewport and exactly centred. |
| MapViewState.ZoomFactor | app.js:324 | The wheel zooms in (factor > 1) exactly when deltaY < 0. deltaY == 0 zooms out. |
| MapViewState.Wheel | app.js:321-339 | The new scale target is clamp(old * 1.09 or 0.91, 0.18, 4.5). The target is the anchored zoom about the cursor, then clamped, so it is in bounds. Coasting is off and nothing else changes. |
| MapViewState.WheelKeepsPointUnderCursor | app.js:326-336 | Unless the clamp has to shift it, the image point under the cursor is still under the cursor after a wheel step. |
| MapViewState.PointerDown | app.js:341-365 | A non-primary button, an active pinch or a press on a marker changes nothing. Otherwise a drag session starts at the pointer and the current target pan, with moved, velocity and coasting cleared. |
| MapViewState.BlendVelocity | app.js:382-387 | v' = 0.45 v + 0.55 * 16.67 * step / max(8, dt), given for both branches of the max. The estimate is bounded by the old estimate and the step over 8 ms. |
| MapViewState.PointerMove | app.js:367-396 | Outside a drag, or during a pinch, nothing changes. Otherwise the target is the clamped session start plus the pointer offset, and it is in bounds. Rendered equals target. dragMoved is set iff it was already set or the offset exceeds 2 px in an axis. The velocity is the blended estimate and the sample is replaced. The scale target never changes. |
| MapViewState.DragIsRelativeToSessionStart | app.js:370-375 | Drag moves do not accumulate: after any earlier move of the session, a move lands on the same target as alone. |
| MapViewState.DragMovedLatches | app.js:377-379 | Once set, dragMoved stays set through later moves. |
| MapViewState.PointerUp | app.js:398-411 | dragging always ends. After a drag, coasting starts iff the squared speed exceeds 0.04 (speed > 0.2). Without a drag nothing else changes. |
| MapViewState.TouchStart | app.js:414-434 | With exactly two touches, a pinch session records the distance, the current scale target and the midpoint, and cancels drag, coasting and velocity. Other touch counts change nothing. |
| MapViewState.PinchScale | app.js:444-446 | The pinch scale lies in [0.18, 4.5]. Inside the range it is exactly start scale * dist / start distance. |
| MapViewState.TouchMove | app.js:436-467 | During a pinch with two touches, the scale target is the pinch scale. The target is the anchored zoom about the fixed pinch centre, clamped into bounds, and rendered equals target. Otherwise nothing changes. The zoom range is kept. |
| MapViewState.PinchScaleIgnoresEarlierMoves | app.js:444-446 | The pinch scale depends on the session and the current distance only. |
| MapViewState.TouchEnd | app.js:469-473 | Fewer than two remaining touches end the pinch. Nothing else changes. |
| MapViewState.Coast | app.js:477-491 | When coasting, the target moves by the velocity and is clamped into bounds, and the momentum takes one decay step. Otherwise nothing changes. Rendered transform, gestures and scale target are kept. |
| MapViewState.Smooth | app.js:493-509 | The rendered transform takes one ease-and-snap step towards the target. Nothing else changes. |
| MapViewState.Animate | app.js:476-513 | One frame: the coasting step for the target and momentum, then the smoothing step from the old rendered transform towards the new target. |
| MapViewState.AnimateDecaysMomentum | app.js:477-491 | Outside a gesture, the momentum after a frame is one decay step of the momentum before. |
| MapViewState.AnimateKeepsTarget | app.js:476-509 | Without coasting a frame leaves the target alone. A frame keeps the pan invariant. |
| MapViewState.AnimateAtRest | app.js:476-509 | With rendered equal to target and coasting off, a frame changes nothing. |
| MapViewState.FramesMomentum | app.js:476-512 | Over n frames without input, the gesture state is kept and the momentum follows the geometric decay. |
| MapViewState.FramesSettle | app.js:493-512 | Without gesture or coasting, the target is fixed and the rendered transform follows the smoothing sequence. |
| MapViewState.ComesToRest | app.js:476-512 | After any release, with no further input, some frame has coasting off and rendered exactly on target. |
| MapViewState.Step | app.js:520-562 | Dispatching any event (resize, wheel, pointer, touch, frame) keeps the scale target in [0.18, 4.5]. Pointer down, pointer up, touch start and touch end leave the target transform unchanged. |
| MapViewState.StepKeepsInvariant | app.js:298-509 | Every handler keeps the scale target in [0.18, 4.5] and, for fixed geometry, the target pan legal. |
| MapViewState.FitExample | app.js:298-319 | An 800x600 viewport with a 2000x1000 image fits at scale 0.4, at translation (0, 100). |
| MapViewState.WheelExample | app.js:321-339 | One wheel step up at the centre after that fit gives scale 0.436 and translation (-36, 82). |
| MapViewState.DragExample | app.js:341-411 | A 100 ms drag from (100, 100) to (150, 130) after the fit keeps the target and sets dragMoved. It leaves velocity (4.58425, 2.75055) and starts coasting on release. |
| MapViewEngine.MapView.constructor | app.js:3-25 | The fields start as the initial record. |
| MapViewEngine.MapView.ClampTargetsToBounds | app.js:82-86 | The fields change exactly as ClampTargets says. |
| MapViewEngine.MapView.Retarget | app.js:333-335 | The target fields take the given transform. |
| MapViewEngine.MapView.ShowTarget | app.js:310-312 | The rendered fields take the target's values. |
| MapViewEngine.MapView.Halt | app.js:314-316 | The velocity is zeroed and coasting is off. |
| MapViewEngine.MapView.FitToViewportOnce | app.js:298-319 | The fields change exactly as Fit says. |
| MapViewEngine.MapView.OnWheel | app.js:321-339 | The fields change exactly as Wheel says. |
| MapViewEngine.MapView.OnPointerDown | app.js:341-365 | The fields change exactly as PointerDown says. |
| MapViewEngine.MapView.FollowPointer | app.js:370-374 | The target pan is the session start plus the pointer offset. |
| MapViewEngine.MapView.LatchMoved | app.js:377-379 | dragMoved is set past the 2 px threshold. |
| MapViewEngine.MapView.SampleVelocity | app.js:381-389 | The velocity average takes the sample, which becomes the last sample. |
| MapViewEngine.MapView.OnPointerMove | app.js:367-396 | The fields change exactly as PointerMove says. |
| MapViewEngine.MapView.OnPointerUp | app.js:398-411 | The fields change exactly as PointerUp says. |
| MapViewEngine.MapView.OnTouchStart | app.js:414-434 | The fields change exactly as TouchStart says. |
| MapViewEngine.MapView.OnTouchMove | app.js:436-467 | The fields change exactly as TouchMove says. |
| MapViewEngine.MapView.OnTouchEnd | app.js:469-473 | The fields change exactly as TouchEnd says. |
| MapViewEngine.MapView.Push | app.js:478-479 | The target moves by the velocity. |
| MapViewEngine.MapView.Brake | app.js:481-482 | The velocity is multiplied by 0.92. |
| MapViewEngine.MapView.StopIfSlow | app.js:486-490 | Below 0.03 in both axes, coasting stops with zero velocity. |
| MapViewEngine.MapView.Interpolate | app.js:493-498 | The rendered fields ease towards the target. |
| MapViewEngine.MapView.SnapIfClose | app.js:500-509 | Within 0.0005 summed residual, the rendered fields snap onto the target. |
| MapViewEngine.MapView.Animate | app.js:476-510 | The fields change exactly as one Animate frame says. |
| ScanPanel.JsRem | scan/scan.js:87 | JavaScript's `%` for a positive divisor. The result is below n in absolute value and differs from a by a multiple of n. It is non-negative for a >= 0 and non-positive for a <= 0. |
| ScanPanel.NextIndex | scan/scan.js:94 | From a valid index, next moves forward by one and wraps from n - 1 to 0. |
| ScanPanel.PrevIndex | scan/scan.js:87 | From a valid index, prev moves back by one and wraps from 0 to n - 1. |
| ScanPanel.StepsAreInverse | scan/scan.js:84-96 | Both steps stay in [0, n), and each undoes the other. |
| ScanPanel.ForwardByIsModular | scan/scan.js:91-96 | k presses of next from index i give (i + k) mod n, so n presses return to the start. |
| ScanPanel.InitialPanel | scan/scan.js:6-12 | The panel starts with no card, index 0 (valid) and the stored collected ids. |
| ScanPanel.ButtonsFor | scan/scan.js:27-33 | prev and next are disabled iff there is no card or it has at most one fact. collect is disabled iff there is no card. |
| ScanPanel.Show | scan/scan.js:44-52 | showCard makes the card active at index 0, which is valid. The collected ids are kept. |
| ScanPanel.Clear | scan/scan.js:54-62 | clearCard leaves no card and index 0, which is valid. |
| ScanPanel.Next | scan/scan.js:91-96 | The next handler keeps the card and the collected ids, and keeps a valid index valid. With at most one fact it does nothing. Otherwise, from a valid index, the new index is (factIndex + 1) % n. |
| ScanPanel.Prev | scan/scan.js:84-89 | The previous handler keeps the card and the collected ids, and keeps a valid index valid. With at most one fact it does nothing. Otherwise, from a valid index, the new index is (factIndex - 1 + n) % n. |
| ScanPanel.NavigationMatchesButtons | scan/scan.js:27-33 | On a valid panel, next and prev change the index iff their buttons are enabled. With the buttons disabled (no card, at most one fact) both are no-ops. |
| ScanPanel.PrevUndoesNext | scan/scan.js:84-96 | On a valid panel, prev after next and next after prev both restore the panel. |
| ScanPanel.Collect | scan/scan.js:98-103 | Without a card nothing is collected. Otherwise the card's id is added and nothing else, and no id is lost. |
| ScanPanel.CollectCounts | scan/scan.js:98-103 | Collecting an already collected id changes nothing. A new id raises the reported count by one. Collecting twice is collecting once. |
| ScanPanel.TargetLost | scan/scan.js:167-170 | Losing the active card (same id) clears the panel. Losing any other card changes nothing. |
| ScanPanel.FoundThenLost | scan/scan.js:162-170 | A lost card with the found card's id clears the panel. One with another id leaves the found card shown. |
| ScanPanel.FactText | scan/scan.js:35-42 | With no facts, the text is "No facts found for this card yet.". Otherwise it is one of the card's facts, read in range. |
| ScanPanel.PanelStep | scan/scan.js:83-171 | Each event keeps a valid index valid and loses no collected id. A found card is shown at its first fact. Buttons leave the active card as it was. |
| ScanPanel.Run | scan/scan.js:83-171 | No events change nothing. If the last event is a found card, that card is on screen at its first fact. |
| ScanPanel.RunAppend | scan/scan.js:83-171 | Handling a then b is handling a + b: event sequences compose. |
| ScanPanel.RunKeepsIndexValid | scan/scan.js:44-170 | After any sequence of found, lost, prev, next and collect events the index stays valid, and no collected id is lost. |
| ScanPanel.Panel.constructor | scan/scan.js:6-12 | The fields start as the initial panel. |
| ScanPanel.Panel.ShowCard | scan/scan.js:44-46 | The fields change exactly as Show says. |
| ScanPanel.Panel.ClearCard | scan/scan.js:54-56 | The fields change exactly as Clear says. |
| ScanPanel.Panel.OnPrev | scan/scan.js:84-89 | The fields change exactly as Prev says. |
| ScanPanel.Panel.OnNext | scan/scan.js:91-96 | The fields change exactly as Next says. |
| ScanPanel.Panel.OnCollect | scan/scan.js:98-104 | The fields change exactly as Collect says. The reported total is the new set's size, and is absent without a card. |
| ScanPanel.Panel.OnTargetFound | scan/scan.js:162-165 | The fields change exactly as Show says. |
| ScanPanel.Panel.OnTargetLost | scan/scan.js:167-170 | The fields change exactly as TargetLost says. |
| ScanPanel.Panel.RenderFact | scan/scan.js:35-42 | The text is FactText of the current panel. |

## Left out

- DOM output is not modelled. This covers `applyTransform`'s style string, the popover and marker functions, `renderMarkers`, canvas drawing, the click and keydown handlers, and every `els.*` text, class and disabled-flag write in both files. It is presentation; the disabled flags are modelled as the value `ButtonsFor` returns.
- The viewport click handler that resets `dragMoved` (app.js:533-536) is not modelled; it belongs to marker/popover click handling.
- The POI-related fields of the state record (`pois`, `selectedId`, `popoverPoiId`) are absent from `View`. They belong to the popover.
- `getBoundingClientRect`, `naturalWidth`/`naturalHeight` and `performance.now()` are parameters: the `Geometry` value and the timestamps.
- `Math.hypot` is not computed. The pinch distance is a parameter. `MapViewState.TouchStart` and `MapViewState.TouchMove` require it to be the distance of the two touches (`IsDistance`). The release speed test compares the squared speed with 0.04.
- Event objects are reduced to what the handlers read: the button, whether the press hit a marker, client coordinates, the number of touches, and deltaY. `preventDefault` and pointer capture are left out.
- `requestAnimationFrame` rescheduling is left out. `Animate` is one frame, and `Frames` iterates it with no input in between.
- All arithmetic is exact real arithmetic. IEEE rounding, `toFixed` and JavaScript's NaN/Infinity are not modelled.
- MapViewState.TouchMove: requires `startDist > 0` and a scale target in the zoom range. The source would divide by zero and produce NaN/Infinity.
- MapViewState.Wheel: requires the scale target in the zoom range, which keeps the division by the scale defined. `StepKeepsInvariant` proves that every handler keeps the scale in range.
- PanZoom.ClientFromWorld: takes the transform as a parameter. The source always uses the rendered transform (`state.scale/tx/ty`), while `worldFromClient` defaults to the target. The round-trip lemmas state the inverse property for one and the same transform.
- PanZoom.ZoomAt: its own contract states only the new scale. The anchor property is the separate lemma `ZoomAtKeepsAnchor`, which needs a non-zero new scale.
- localStorage (`loadCollectedSet`/`saveCollectedSet`) is not modelled. The collected set is an in-memory `set<string>`. Load failures and JSON parsing are not modelled. The status message is reduced to the count it reports.
- A card whose JSON lacks `facts` is represented with an empty fact sequence, as `facts ?? []` treats it.
- `startScanner` is not modelled: fetches, MindAR/THREE setup, the ring animation, the start/retry button states and the error message. `setupStopLifecycle` is not modelled either. These are foreign libraries, network I/O and camera I/O. Only the panel updates of `onTargetFound`/`onTargetLost` are modelled.
- `welcome.js` (a decorative pointer tilt effect) is not part of this model.
- A single drag move from rest measures a per-frame velocity of (8.335, 5.001). The velocity estimate blends it with the zeroed velocity, so it keeps 0.55 of it: (4.58425, 2.75055) (`MapViewState.DragExample`).
