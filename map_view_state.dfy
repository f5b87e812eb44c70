/** The pan/zoom/inertia engine of app.js as values: the engine's state
    record, one transition function per event handler and per animation
    frame, and what they guarantee alone and over many frames. */
module MapViewState {
  import opened Optional
  import opened PanZoom
  import opened Decay
  import opened Inertia
  import opened Smoothing

  const ZoomInFactor: real := 1.09
  const ZoomOutFactor: real := 0.91
  /** A drag farther than this (in either axis, px) is not a click. */
  const DragThreshold: real := 2.0
  /** Smallest time step (ms) the velocity estimate divides by. */
  const MinFrameGap: real := 8.0
  /** Length of a frame (ms): velocities are in px per frame. */
  const FrameMs: real := 16.67
  /** Weights of the old estimate and of the new sample in the velocity average. */
  const VelocityKeep: real := 0.45
  const VelocityGain: real := 0.55
  /** Inertia starts on release when the speed exceeds 0.2, i.e. its square exceeds 0.04. */
  const InertiaMinSpeedSq: real := 0.04

  /** Pointer position and target pan when the drag began. */
  datatype DragStart = DragStart(x: real, y: real, tx: real, ty: real)
  /** The last pointer sample of the drag, with its timestamp (ms). */
  datatype DragSample = DragSample(x: real, y: real, t: real)
  /** A two-finger gesture: start distance, start scale and the fixed centre. */
  datatype Pinch = Pinch(startDist: real, startScale: real, centerX: real, centerY: real)
  /** What the engine reads from the page on every call. */
  datatype Geometry = Geometry(viewport: Viewport, image: ImageSize)

  /** The engine's state record (app.js:3-25, without the page-level POI fields). */
  datatype View = View(
    scale: real, tx: real, ty: real,
    scaleTarget: real, txTarget: real, tyTarget: real,
    dragging: bool, dragMoved: bool, dragStart: DragStart, dragMetrics: DragSample,
    pinch: Option<Pinch>, velocity: Vec, inertiaActive: bool)
  {
    function Target(): Transform { Transform(scaleTarget, txTarget, tyTarget) }
    function Rendered(): Transform { Transform(scale, tx, ty) }
    function Motion(): Momentum { Momentum(inertiaActive, velocity) }
  }

  /** The record as the page starts with it. */
  function Initial(): (s: View)
    ensures Valid(s) && s.Rendered() == s.Target()
    ensures s.Target() == Transform(1.0, 0.0, 0.0)
    ensures !s.dragging && s.pinch.None? && !s.inertiaActive
  {
    View(1.0, 0.0, 0.0, 1.0, 0.0, 0.0, false, false,
         DragStart(0.0, 0.0, 0.0, 0.0), DragSample(0.0, 0.0, 0.0), None, Vec(0.0, 0.0), false)
  }

  /** The target scale stays within the zoom range (in particular it is
      positive, so image coordinates can always be recovered). */
  predicate Valid(s: View) { MinScale <= s.scaleTarget <= MaxScale }

  function Bounds(s: View, g: Geometry): PanBounds
  {
    GetPanBounds(g.viewport, g.image, s.scaleTarget)
  }

  /** The pan invariant: the target translation is legal for the target scale. */
  predicate InBounds(s: View, g: Geometry)
  {
    Contains(Bounds(s, g), s.Target())
  }

  /** The drag and pinch bookkeeping is as in `t`. */
  predicate SameGesture(s: View, t: View)
  {
    s.dragging == t.dragging && s.dragMoved == t.dragMoved && s.dragStart == t.dragStart
    && s.dragMetrics == t.dragMetrics && s.pinch == t.pinch
  }

  // ---------------------------------------------------------------- clamping

  /** clampTargetsToBounds: only the target translation changes, it ends up
      legal, and a legal one is left alone. */
  function ClampTargets(s: View, g: Geometry): (r: View)
    ensures r.Target() == ClampPan(s.Target(), Bounds(s, g))
    ensures r == s.(txTarget := r.txTarget, tyTarget := r.tyTarget)
    ensures InBounds(r, g)
    ensures InBounds(s, g) ==> r == s
  {
    var b := Bounds(s, g);
    s.(txTarget := Clamp(s.txTarget, b.minTx, b.maxTx), tyTarget := Clamp(s.tyTarget, b.minTy, b.maxTy))
  }

  /** Clamping an already clamped target changes nothing. */
  lemma ClampTargetsIdempotent(s: View, g: Geometry)
    ensures ClampTargets(ClampTargets(s, g), g) == ClampTargets(s, g)
  {
    var r := ClampTargets(s, g);
    assert InBounds(r, g);
  }

  // ---------------------------------------------------------------- shared steps

  /** The assignments to the target that precede a clampTargetsToBounds call. */
  function Retarget(s: View, t: Transform): View
  {
    s.(scaleTarget := t.scale, txTarget := t.tx, tyTarget := t.ty)
  }

  /** The rendered transform jumps onto the target (fit, drag and pinch do
      this instead of easing). */
  function ShowTarget(s: View): View
  {
    s.(scale := s.scaleTarget, tx := s.txTarget, ty := s.tyTarget)
  }

  /** Coasting is cancelled and its velocity zeroed. */
  function Halt(s: View): View
  {
    s.(velocity := Vec(0.0, 0.0), inertiaActive := false)
  }

  // ---------------------------------------------------------------- fit

  /** The scale at which the whole image fits the viewport. */
  function FitScale(g: Geometry): real
    requires g.image.w != 0.0 && g.image.h != 0.0
  {
    Min(g.viewport.width / g.image.w, g.viewport.height / g.image.h)
  }

  /** The target the fit chooses: the fit scale kept within [0.18, 1.2],
      with the image centred, then clamped into the pan range. */
  function FitTarget(g: Geometry): (t: Transform)
    requires g.image.w != 0.0 && g.image.h != 0.0
    ensures t.scale == Clamp(FitScale(g), MinScale, FitMaxScale)
    ensures MinScale <= t.scale <= FitMaxScale
    ensures Contains(GetPanBounds(g.viewport, g.image, t.scale), t)
  {
    var c := Centred(g);
    var b := GetPanBounds(g.viewport, g.image, c.scale);
    assert b.minTx <= b.maxTx && b.minTy <= b.maxTy;
    ClampPan(c, b)
  }

  /** The fit's target before clamping: the clamped fit scale with the image
      centred in the viewport. */
  function Centred(g: Geometry): Transform
    requires g.image.w != 0.0 && g.image.h != 0.0
  {
    var sc := Clamp(FitScale(g), MinScale, FitMaxScale);
    Transform(sc, (g.viewport.width - g.image.w * sc) / 2.0, (g.viewport.height - g.image.h * sc) / 2.0)
  }

  /** fitToViewportOnce: nothing happens without an image size; otherwise the
      target becomes the fit target, legal for its scale, the rendered
      transform jumps onto it and any coasting is cancelled. */
  function Fit(s: View, g: Geometry): (r: View)
    ensures g.image.w == 0.0 || g.image.h == 0.0 ==> r == s
    ensures g.image.w != 0.0 && g.image.h != 0.0 ==>
      && r.Target() == FitTarget(g) && InBounds(r, g) && r.Rendered() == r.Target()
      && r.velocity == Vec(0.0, 0.0) && !r.inertiaActive
      && SameGesture(r, s)
    ensures Valid(s) ==> Valid(r)
  {
    if g.image.w == 0.0 || g.image.h == 0.0 then s
    else Halt(ShowTarget(ClampTargets(Retarget(s, Centred(g)), g)))
  }

  /** A scale no larger than view / len makes len fit into view. */
  lemma FitsAlong(sc: real, view: real, len: real)
    requires len > 0.0 && sc <= view / len
    ensures len * sc <= view
  {
    MulLeRight(sc, view / len, len);
  }

  /** At most the fit scale, the image fits the viewport in both axes. */
  lemma FitScaleFits(g: Geometry, sc: real)
    requires g.image.w > 0.0 && g.image.h > 0.0 && sc <= FitScale(g)
    ensures g.image.w * sc <= g.viewport.width && g.image.h * sc <= g.viewport.height
  {
    FitsAlong(sc, g.viewport.width, g.image.w);
    FitsAlong(sc, g.viewport.height, g.image.h);
  }

  /** When the fit needs no less than the minimum zoom, the whole image is
      inside the viewport and exactly centred. */
  lemma FitShowsWholeImage(g: Geometry)
    requires g.image.w > 0.0 && g.image.h > 0.0
    requires MinScale <= FitScale(g)
    ensures var t := FitTarget(g);
      && g.image.w * t.scale <= g.viewport.width
      && g.image.h * t.scale <= g.viewport.height
      && t.tx == (g.viewport.width - g.image.w * t.scale) / 2.0
      && t.ty == (g.viewport.height - g.image.h * t.scale) / 2.0
  {
    var c := Centred(g);
    assert c.scale <= FitScale(g);
    FitScaleFits(g, c.scale);
    FittingImageIsCentred(g.viewport, g.image, c.scale);
  }

  // ---------------------------------------------------------------- wheel

  /** Scrolling up (negative deltaY) zooms in; zero and positive zoom out. */
  function ZoomFactor(deltaY: real): (f: real)
    ensures f > 1.0 <==> deltaY < 0.0
    ensures f > 0.0
  {
    if deltaY < 0.0 then ZoomInFactor else ZoomOutFactor
  }

  /** onWheel: one zoom step about the cursor, then the pan is clamped and
      coasting cancelled. The rendered transform and gestures are untouched. */
  function Wheel(s: View, g: Geometry, deltaY: real, client: Point): (r: View)
    requires Valid(s)
    ensures Valid(r)
    ensures r.scaleTarget == Clamp(s.scaleTarget * ZoomFactor(deltaY), MinScale, MaxScale)
    ensures r.Target() == ClampPan(ZoomAt(s.Target(), client, g.viewport, r.scaleTarget), Bounds(r, g))
    ensures InBounds(r, g) && !r.inertiaActive
    ensures r == s.(scaleTarget := r.scaleTarget, txTarget := r.txTarget, tyTarget := r.tyTarget,
                    inertiaActive := false)
  {
    var newScale := Clamp(s.scaleTarget * ZoomFactor(deltaY), MinScale, MaxScale);
    ClampTargets(Retarget(s, ZoomAt(s.Target(), client, g.viewport, newScale)), g).(inertiaActive := false)
  }

  /** Unless the bounds force a shift, the image point under the cursor is
      still under the cursor after a wheel step. */
  lemma WheelKeepsPointUnderCursor(s: View, g: Geometry, deltaY: real, client: Point)
    requires Valid(s)
    requires var sc := Clamp(s.scaleTarget * ZoomFactor(deltaY), MinScale, MaxScale);
             Contains(GetPanBounds(g.viewport, g.image, sc), ZoomAt(s.Target(), client, g.viewport, sc))
    ensures WorldFromClient(client, g.viewport, Wheel(s, g, deltaY, client).Target())
         == WorldFromClient(client, g.viewport, s.Target())
  {
    var sc := Clamp(s.scaleTarget * ZoomFactor(deltaY), MinScale, MaxScale);
    var z := ZoomAt(s.Target(), client, g.viewport, sc);
    assert Wheel(s, g, deltaY, client).Target() == z;
    ZoomAtKeepsAnchor(s.Target(), client, g.viewport, sc);
  }

  // ---------------------------------------------------------------- drag

  /** onPointerDown: ignored for a non-primary button, during a pinch, or on a
      marker; otherwise a drag session starts at the current target and any
      coasting velocity is discarded. */
  function PointerDown(s: View, button: int, onMarker: bool, client: Point, now: real): (r: View)
    ensures button != 0 || s.pinch.Some? || onMarker ==> r == s
    ensures button == 0 && s.pinch.None? && !onMarker ==>
      && r.dragging && !r.dragMoved && !r.inertiaActive && r.velocity == Vec(0.0, 0.0)
      && r.dragStart == DragStart(client.x, client.y, s.txTarget, s.tyTarget)
      && r.dragMetrics == DragSample(client.x, client.y, now)
      && r.Target() == s.Target() && r.Rendered() == s.Rendered() && r.pinch == s.pinch
  {
    if button != 0 || s.pinch.Some? || onMarker then s
    else
      s.(dragging := true, dragMoved := false, inertiaActive := false, velocity := Vec(0.0, 0.0),
         dragStart := DragStart(client.x, client.y, s.txTarget, s.tyTarget),
         dragMetrics := DragSample(client.x, client.y, now))
  }

  /** |a / d| <= |a| / 8 whenever d is at least the 8 ms floor. */
  lemma DivBound(a: real, d: real)
    requires d >= MinFrameGap
    ensures Abs(a / d) <= Abs(a) / MinFrameGap
  {
    var q := a / d;
    assert q * d == a;
    if q >= 0.0 {
      MulLeRight(MinFrameGap, d, q);
      assert MinFrameGap * q <= Abs(a);
    } else {
      MulLeRight(MinFrameGap, d, -q);
      assert MinFrameGap * -q <= Abs(a);
    }
  }

  /** One component of the velocity average: the old estimate weighted 0.45
      and the new per-frame velocity weighted 0.55, never dividing by less
      than 8 ms. A sample arriving sooner than 8 ms is treated as 8 ms
      apart, so the estimate is bounded by the old one and the step alone. */
  function BlendVelocity(v: real, step: real, elapsed: real): (r: real)
    ensures MinFrameGap <= elapsed ==> r == VelocityKeep * v + VelocityGain * FrameMs * (step / elapsed)
    ensures elapsed <= MinFrameGap ==> r == VelocityKeep * v + VelocityGain * FrameMs * (step / MinFrameGap)
    ensures Abs(r) <= VelocityKeep * Abs(v) + VelocityGain * FrameMs * (Abs(step) / MinFrameGap)
  {
    var dt := Max(MinFrameGap, elapsed);
    var frameVelocity := (step / dt) * FrameMs;
    DivBound(step, dt);
    v * VelocityKeep + frameVelocity * VelocityGain
  }

  /** The target a drag move asks for: the session's start pan plus the
      pointer's offset from the session's start point, clamped. */
  function DragTarget(s: View, g: Geometry, client: Point): Transform
  {
    ClampPan(Transform(s.scaleTarget, s.dragStart.tx + (client.x - s.dragStart.x),
                       s.dragStart.ty + (client.y - s.dragStart.y)), Bounds(s, g))
  }

  /** The drag's pan: the start pan plus the pointer's offset from the start point. */
  function FollowPointer(s: View, client: Point): View
  {
    s.(txTarget := s.dragStart.tx + (client.x - s.dragStart.x), tyTarget := s.dragStart.ty + (client.y - s.dragStart.y))
  }

  /** The moved flag is set once the pointer is more than 2 px from the start point in an axis. */
  function LatchMoved(s: View, client: Point): View
  {
    if Abs(client.x - s.dragStart.x) > DragThreshold || Abs(client.y - s.dragStart.y) > DragThreshold
    then s.(dragMoved := true)
    else s
  }

  /** The velocity average takes the sample at `client`, which becomes the last sample. */
  function SampleVelocity(s: View, client: Point, now: real): View
  {
    var elapsed := now - s.dragMetrics.t;
    s.(velocity := Vec(BlendVelocity(s.velocity.x, client.x - s.dragMetrics.x, elapsed),
                       BlendVelocity(s.velocity.y, client.y - s.dragMetrics.y, elapsed)),
       dragMetrics := DragSample(client.x, client.y, now))
  }

  /** onPointerMove: outside a drag (or during a pinch) nothing happens;
      otherwise the target follows the pointer relative to the session start,
      the rendered transform jumps onto it, the moved flag latches once the
      pointer is more than 2 px away, and the velocity average is updated. */
  function PointerMove(s: View, g: Geometry, client: Point, now: real): (r: View)
    ensures !s.dragging || s.pinch.Some? ==> r == s
    ensures s.dragging && s.pinch.None? ==>
      && r.Target() == DragTarget(s, g, client)
      && InBounds(r, g) && r.Rendered() == r.Target()
      && (r.dragMoved <==> s.dragMoved || Abs(client.x - s.dragStart.x) > DragThreshold
                                       || Abs(client.y - s.dragStart.y) > DragThreshold)
      && r.velocity == Vec(BlendVelocity(s.velocity.x, client.x - s.dragMetrics.x, now - s.dragMetrics.t),
                           BlendVelocity(s.velocity.y, client.y - s.dragMetrics.y, now - s.dragMetrics.t))
      && r.dragMetrics == DragSample(client.x, client.y, now)
      && r.dragging && r.dragStart == s.dragStart && r.pinch == s.pinch
      && r.inertiaActive == s.inertiaActive
    ensures r.scaleTarget == s.scaleTarget
  {
    if !s.dragging || s.pinch.Some? then s
    else ShowTarget(SampleVelocity(LatchMoved(ClampTargets(FollowPointer(s, client), g), client), client, now))
  }

  /** Drag moves do not accumulate: after any earlier move of the same
      session, a move lands on the same target as it would have alone. */
  lemma DragIsRelativeToSessionStart(s: View, g: Geometry, c1: Point, t1: real, c2: Point, t2: real)
    ensures PointerMove(PointerMove(s, g, c1, t1), g, c2, t2).Target() == PointerMove(s, g, c2, t2).Target()
  {
    var m := PointerMove(s, g, c1, t1);
    assert m.dragStart == s.dragStart && m.scaleTarget == s.scaleTarget;
  }

  /** Once a drag has been recognised as a move it stays one. */
  lemma DragMovedLatches(s: View, g: Geometry, c: Point, t: real)
    requires s.dragMoved
    ensures PointerMove(s, g, c, t).dragMoved
  {
  }

  function SpeedSquared(v: Vec): real { v.x * v.x + v.y * v.y }

  /** onPointerUp (and pointercancel): the drag ends; if one was in progress,
      coasting starts exactly when its speed exceeds 0.2 px per frame. */
  function PointerUp(s: View): (r: View)
    ensures !r.dragging
    ensures s.dragging ==> (r.inertiaActive <==> SpeedSquared(s.velocity) > InertiaMinSpeedSq)
    ensures !s.dragging ==> r == s
    ensures r == s.(dragging := false, inertiaActive := r.inertiaActive)
  {
    if s.dragging then
      s.(inertiaActive := SpeedSquared(s.velocity) > InertiaMinSpeedSq, dragging := false)
    else
      s
  }

  // ---------------------------------------------------------------- pinch

  /** `d` is the distance between `a` and `b` (Math.hypot of their offsets). */
  predicate IsDistance(d: real, a: Point, b: Point)
  {
    d >= 0.0 && d * d == (a.x - b.x) * (a.x - b.x) + (a.y - b.y) * (a.y - b.y)
  }

  /** touchstart: with exactly two touches a pinch session begins, recording
      the distance, the current target scale and the midpoint; any drag and
      coasting are cancelled. Other touch counts change nothing. */
  function TouchStart(s: View, touches: seq<Point>, dist: real): (r: View)
    requires |touches| == 2 ==> IsDistance(dist, touches[0], touches[1])
    ensures |touches| != 2 ==> r == s
    ensures |touches| == 2 ==>
      && r.pinch == Some(Pinch(dist, s.scaleTarget, (touches[0].x + touches[1].x) / 2.0,
                                                    (touches[0].y + touches[1].y) / 2.0))
      && !r.dragging && !r.inertiaActive && r.velocity == Vec(0.0, 0.0)
      && r == s.(pinch := r.pinch, dragging := false, inertiaActive := false, velocity := Vec(0.0, 0.0))
  {
    if |touches| != 2 then s
    else
      var a, b := touches[0], touches[1];
      s.(pinch := Some(Pinch(dist, s.scaleTarget, (a.x + b.x) / 2.0, (a.y + b.y) / 2.0)),
         dragging := false, inertiaActive := false, velocity := Vec(0.0, 0.0))
  }

  /** The scale a pinch asks for: the start scale times the distance ratio,
      clamped to the zoom range; inside the range it is exactly proportional
      to the finger distance. */
  function PinchScale(p: Pinch, dist: real): (r: real)
    requires p.startDist > 0.0
    ensures MinScale <= r <= MaxScale
    ensures MinScale <= p.startScale * (dist / p.startDist) <= MaxScale ==>
      r * p.startDist == p.startScale * dist
  {
    Clamp(p.startScale * (dist / p.startDist), MinScale, MaxScale)
  }

  function PinchCenter(p: Pinch): Point { Point(p.centerX, p.centerY) }

  /** touchmove: during a pinch with two touches, the target scale becomes
      the session's pinch scale, zoomed about the fixed centre, clamped, and
      the rendered transform jumps onto it. Otherwise nothing happens. */
  function TouchMove(s: View, g: Geometry, touches: seq<Point>, dist: real): (r: View)
    requires Valid(s)
    requires |touches| == 2 ==> IsDistance(dist, touches[0], touches[1])
    requires s.pinch.Some? ==> s.pinch.value.startDist > 0.0
    ensures s.pinch.None? || |touches| != 2 ==> r == s
    ensures s.pinch.Some? && |touches| == 2 ==>
      && r.scaleTarget == PinchScale(s.pinch.value, dist)
      && r.Target() == ClampPan(ZoomAt(s.Target(), PinchCenter(s.pinch.value), g.viewport, r.scaleTarget),
                                Bounds(r, g))
      && InBounds(r, g) && r.Rendered() == r.Target()
      && SameGesture(r, s) && r.velocity == s.velocity && r.inertiaActive == s.inertiaActive
    ensures Valid(r)
  {
    if s.pinch.None? || |touches| != 2 then s
    else
      var p := s.pinch.value;
      ShowTarget(ClampTargets(Retarget(s, ZoomAt(s.Target(), PinchCenter(p), g.viewport, PinchScale(p, dist))), g))
  }

  /** The pinch scale depends on the session and the current distance only,
      not on the moves in between. */
  lemma PinchScaleIgnoresEarlierMoves(s: View, g: Geometry, t1: seq<Point>, d1: real, t2: seq<Point>, d2: real)
    requires Valid(s) && s.pinch.Some? && s.pinch.value.startDist > 0.0
    requires |t1| == 2 && |t2| == 2
    requires IsDistance(d1, t1[0], t1[1]) && IsDistance(d2, t2[0], t2[1])
    ensures TouchMove(TouchMove(s, g, t1, d1), g, t2, d2).scaleTarget == TouchMove(s, g, t2, d2).scaleTarget
  {
    var m := TouchMove(s, g, t1, d1);
    assert m.pinch == s.pinch;
  }

  /** touchend: fewer than two remaining touches end the pinch. */
  function TouchEnd(s: View, remaining: nat): (r: View)
    ensures remaining < 2 ==> r.pinch.None?
    ensures remaining >= 2 ==> r == s
    ensures r == s.(pinch := r.pinch)
  {
    if remaining < 2 then s.(pinch := None) else s
  }

  // ---------------------------------------------------------------- animation frame

  /** A drag or a pinch is in progress. */
  predicate Gesturing(s: View) { s.dragging || s.pinch.Some? }

  /** The frame applies inertia: no gesture and coasting switched on. */
  predicate Coasting(s: View) { !Gesturing(s) && s.inertiaActive }

  /** The coasting step's parts: the target moves by the velocity, the
      velocity loses 8%, and coasting stops once it is below 0.03 in both axes. */
  function Push(s: View): View
  {
    s.(txTarget := s.txTarget + s.velocity.x, tyTarget := s.tyTarget + s.velocity.y)
  }

  function Brake(s: View): View
  {
    s.(velocity := ScaleVec(s.velocity, Friction))
  }

  function StopIfSlow(s: View): View
  {
    if Negligible(s.velocity) then Halt(s) else s
  }

  /** The inertia half of animate: when coasting, the target moves by the
      velocity and is clamped, and the momentum takes one decay step;
      otherwise nothing changes. */
  function Coast(s: View, g: Geometry): (r: View)
    ensures Coasting(s) ==>
      && r.Target() == ClampPan(Transform(s.scaleTarget, s.txTarget + s.velocity.x, s.tyTarget + s.velocity.y),
                                Bounds(s, g))
      && r.Motion() == DecayStep(s.Motion())
      && InBounds(r, g)
    ensures !Coasting(s) ==> r == s
    ensures r.Rendered() == s.Rendered() && SameGesture(r, s) && r.scaleTarget == s.scaleTarget
  {
    if !Coasting(s) then s
    else StopIfSlow(ClampTargets(Brake(Push(s)), g))
  }

  /** The smoothing step's parts: the rendered transform eases towards the
      target, then snaps onto it when the summed residual is below 0.0005. */
  function Interpolate(s: View): View
  {
    var a := Approach(s.Rendered(), s.Target(), Gesturing(s));
    s.(scale := a.scale, tx := a.tx, ty := a.ty)
  }

  function SnapIfClose(s: View): View
  {
    if Residual(s.Rendered(), s.Target()) < SnapEpsilon then ShowTarget(s) else s
  }

  /** The smoothing half of animate: the rendered transform takes one
      interpolation-and-snap step towards the target. */
  function Smooth(s: View): (r: View)
    ensures r.Rendered() == Settle(s.Rendered(), s.Target(), Gesturing(s))
    ensures r == s.(scale := r.scale, tx := r.tx, ty := r.ty)
  {
    SnapIfClose(Interpolate(s))
  }

  /** One call of animate, without the rescheduling. */
  function Animate(s: View, g: Geometry): (r: View)
    ensures r.Target() == Coast(s, g).Target() && r.Motion() == Coast(s, g).Motion()
    ensures r.Rendered() == Settle(s.Rendered(), r.Target(), Gesturing(s))
    ensures SameGesture(r, s) && r.scaleTarget == s.scaleTarget
  {
    Smooth(Coast(s, g))
  }

  /** Outside a gesture, the momentum after a frame is one decay step of the
      momentum before it (idle momentum is a fixed point of the decay). */
  lemma AnimateDecaysMomentum(s: View, g: Geometry)
    requires !Gesturing(s)
    ensures Animate(s, g).Motion() == DecayStep(s.Motion())
  {
  }

  /** Without coasting, a frame leaves the target alone; the frame keeps the
      pan invariant in either case. */
  lemma AnimateKeepsTarget(s: View, g: Geometry)
    ensures !Coasting(s) ==> Animate(s, g).Target() == s.Target()
    ensures InBounds(s, g) ==> InBounds(Animate(s, g), g)
  {
    var c := Coast(s, g);
    assert Bounds(Animate(s, g), g) == Bounds(c, g);
  }

  /** A state at rest (rendered on target, no coasting) is a fixed point of animate. */
  lemma AnimateAtRest(s: View, g: Geometry)
    requires s.Rendered() == s.Target() && !s.inertiaActive
    ensures Animate(s, g) == s
  {
    SettleFixedPoint(s.Target(), Gesturing(s));
  }

  /** animate as a step function, for iterating. */
  function AnimateStep(g: Geometry): View -> View
  {
    s => Animate(s, g)
  }

  /** `x` after n applications of `f`. */
  function Iterate<T>(f: T -> T, x: T, n: nat): T
  {
    if n == 0 then x else f(Iterate(f, x, n - 1))
  }

  /** Applying `f` a + b times is applying it a times and then b times. */
  lemma {:induction false} IterateAdd<T>(f: T -> T, x: T, a: nat, b: nat)
    ensures Iterate(f, x, a + b) == Iterate(f, Iterate(f, x, a), b)
  {
    if b > 0 {
      IterateAdd(f, x, a, b - 1);
    }
  }

  /** The state after n animation frames with no input in between. */
  function Frames(s: View, g: Geometry, n: nat): View
  {
    Iterate(AnimateStep(g), s, n)
  }

  /** Frame n is one animate call after frame n - 1. */
  lemma FramesStep(s: View, g: Geometry, n: nat)
    requires n > 0
    ensures Frames(s, g, n) == Animate(Frames(s, g, n - 1), g)
  {
    assert AnimateStep(g)(Frames(s, g, n - 1)) == Animate(Frames(s, g, n - 1), g);
  }

  /** Frames keep the gesture bookkeeping, and outside a gesture the momentum
      follows the geometric decay of the inertia controller. */
  lemma {:induction false} FramesMomentum(s: View, g: Geometry, n: nat)
    requires !Gesturing(s)
    ensures SameGesture(Frames(s, g, n), s)
    ensures Frames(s, g, n).Motion() == DecayAfter(s.Motion(), n)
  {
    if n > 0 {
      FramesMomentum(s, g, n - 1);
      FramesStep(s, g, n);
      var f := Frames(s, g, n - 1);
      AnimateDecaysMomentum(f, g);
    }
  }

  /** With no gesture and no coasting, the target stays put and the rendered
      transform follows the smoothing sequence towards it. */
  lemma {:induction false} FramesSettle(s: View, g: Geometry, n: nat)
    requires !Gesturing(s) && !s.inertiaActive
    ensures Frames(s, g, n).Target() == s.Target() && Frames(s, g, n).Motion() == s.Motion()
    ensures SameGesture(Frames(s, g, n), s)
    ensures Frames(s, g, n).Rendered() == SettleAfter(s.Rendered(), s.Target(), false, n)
  {
    if n > 0 {
      FramesSettle(s, g, n - 1);
      FramesStep(s, g, n);
      var f := Frames(s, g, n - 1);
      assert !Coasting(f);
      assert Coast(f, g) == f;
    }
  }

  /** After any release, with no further input, the view comes to rest after
      finitely many frames: coasting has ended with zero velocity and the
      rendered transform sits exactly on the target. */
  lemma ComesToRest(s: View, g: Geometry) returns (n: nat)
    requires !Gesturing(s)
    ensures var f := Frames(s, g, n);
      !f.inertiaActive && f.Rendered() == f.Target() && SameGesture(f, s)
  {
    var a: nat := 0;
    if s.inertiaActive {
      a := EventuallyStops(s.velocity);
    }
    FramesMomentum(s, g, a);
    var f := Frames(s, g, a);
    assert !f.inertiaActive;
    var b := ReachesTarget(f.Rendered(), f.Target(), false);
    FramesSettle(f, g, b);
    IterateAdd(AnimateStep(g), s, a, b);
    n := a + b;
    assert Frames(s, g, n) == Frames(f, g, b);
  }

  // ---------------------------------------------------------------- the invariant over all events

  /** The inputs the engine reacts to: a resize (which refits), the wheel,
      pointer and touch events, and an animation frame. */
  datatype Event =
    | Resize
    | WheelEvent(deltaY: real, client: Point)
    | Down(button: int, onMarker: bool, client: Point, now: real)
    | Move(client: Point, now: real)
    | Up
    | TouchesStart(touches: seq<Point>, dist: real)
    | TouchesMove(touches: seq<Point>, dist: real)
    | TouchesEnd(remaining: nat)
    | Frame

  /** What the page supplies with an event: the finger distance of a
      two-finger touch, and a pinch that started at a positive distance. */
  predicate EventOk(s: View, e: Event)
  {
    && (e.TouchesStart? && |e.touches| == 2 ==> IsDistance(e.dist, e.touches[0], e.touches[1]))
    && (e.TouchesMove? && |e.touches| == 2 ==> IsDistance(e.dist, e.touches[0], e.touches[1]))
    && (e.TouchesMove? && s.pinch.Some? ==> s.pinch.value.startDist > 0.0)
  }

  /** The handler the event is dispatched to (the listeners bindUI and
      initTouchPinch register, and the animation loop). Every handler keeps
      the zoom in range; only a resize, a wheel step, a pinch move, a drag
      move or a coasting frame moves the target. */
  function Step(s: View, g: Geometry, e: Event): (r: View)
    requires Valid(s) && EventOk(s, e)
    ensures Valid(r)
    ensures e.Down? || e.Up? || e.TouchesStart? || e.TouchesEnd? ==> r.Target() == s.Target()
  {
    match e
    case Resize => Fit(s, g)
    case WheelEvent(deltaY, client) => Wheel(s, g, deltaY, client)
    case Down(button, onMarker, client, now) => PointerDown(s, button, onMarker, client, now)
    case Move(client, now) => PointerMove(s, g, client, now)
    case Up => PointerUp(s)
    case TouchesStart(touches, dist) => TouchStart(s, touches, dist)
    case TouchesMove(touches, dist) => TouchMove(s, g, touches, dist)
    case TouchesEnd(remaining) => TouchEnd(s, remaining)
    case Frame => Animate(s, g)
  }

  /** Every handler keeps the zoom in range and, for a fixed viewport and
      image, the target pan legal: the invariant clampTargetsToBounds exists for. */
  lemma StepKeepsInvariant(s: View, g: Geometry, e: Event)
    requires Valid(s) && EventOk(s, e) && InBounds(s, g)
    ensures Valid(Step(s, g, e)) && InBounds(Step(s, g, e), g)
  {
    match e
    case Resize =>
    case WheelEvent(deltaY, client) =>
    case Down(button, onMarker, client, now) =>
      assert Bounds(PointerDown(s, button, onMarker, client, now), g) == Bounds(s, g);
    case Move(client, now) =>
    case Up =>
      assert Bounds(PointerUp(s), g) == Bounds(s, g);
    case TouchesStart(touches, dist) =>
      assert Bounds(TouchStart(s, touches, dist), g) == Bounds(s, g);
    case TouchesMove(touches, dist) =>
    case TouchesEnd(remaining) =>
      assert Bounds(TouchEnd(s, remaining), g) == Bounds(s, g);
    case Frame =>
      AnimateKeepsTarget(s, g);
  }

  // ---------------------------------------------------------------- a worked session

  /** An 800 x 600 viewport at the page origin showing a 2000 x 1000 image. */
  function Landscape(): Geometry
  {
    Geometry(Viewport(0.0, 0.0, 800.0, 600.0), ImageSize(2000.0, 1000.0))
  }

  /** The fit scale is 0.4; the image then spans the width exactly and is
      centred vertically, 100 px from the top. */
  lemma FitExample()
    ensures FitTarget(Landscape()) == Transform(0.4, 0.0, 100.0)
  {
    var g := Landscape();
    assert FitScale(g) == 0.4;
    var b := GetPanBounds(g.viewport, g.image, 0.4);
    PanBoundsShape(g.viewport, g.image, 0.4);
    assert b == PanBounds(0.0, 0.0, 100.0, 100.0);
  }

  /** One wheel step up at the viewport centre after the fit zooms to 0.436
      about image point (1000, 500), which now spills 96 px to the left. */
  lemma WheelExample()
    ensures Wheel(Fit(Initial(), Landscape()), Landscape(), -1.0, Point(400.0, 300.0)).Target()
         == Transform(0.436, -36.0, 82.0)
  {
    var g := Landscape();
    FitExample();
    var s := Fit(Initial(), g);
    assert s.Target() == Transform(0.4, 0.0, 100.0);
    assert s.scaleTarget * ZoomFactor(-1.0) == 0.436;
    assert Clamp(0.436, MinScale, MaxScale) == 0.436;
    var r := Wheel(s, g, -1.0, Point(400.0, 300.0));
    assert r.scaleTarget == 0.436;
    var z := ZoomAt(s.Target(), Point(400.0, 300.0), g.viewport, 0.436);
    assert z == Transform(0.436, -36.0, 82.0);
    var b := GetPanBounds(g.viewport, g.image, 0.436);
    PanBoundsShape(g.viewport, g.image, 0.436);
    assert b == PanBounds(-96.0, 24.0, 82.0, 82.0);
    assert r.Target() == ClampPan(z, b);
  }

  /** A 100 ms drag from (100, 100) to (150, 130) after the fit: the image
      fits, so the target cannot move; the velocity estimate is 0.55 of the
      per-frame velocity (8.335, 5.001), and the release starts coasting. */
  lemma DragExample()
    ensures var g := Landscape();
      var down := PointerDown(Fit(Initial(), g), 0, false, Point(100.0, 100.0), 0.0);
      var moved := PointerMove(down, g, Point(150.0, 130.0), 100.0);
      var up := PointerUp(moved);
      && moved.Target() == Transform(0.4, 0.0, 100.0) && moved.dragMoved
      && up.velocity == Vec(4.58425, 2.75055) && up.inertiaActive && !up.dragging
  {
    var g := Landscape();
    FitExample();
    var down := PointerDown(Fit(Initial(), g), 0, false, Point(100.0, 100.0), 0.0);
    assert down.dragStart == DragStart(100.0, 100.0, 0.0, 100.0);
    assert down.dragMetrics == DragSample(100.0, 100.0, 0.0);
    assert down.velocity == Vec(0.0, 0.0) && down.scaleTarget == 0.4;
    var b := GetPanBounds(g.viewport, g.image, 0.4);
    PanBoundsShape(g.viewport, g.image, 0.4);
    assert b == PanBounds(0.0, 0.0, 100.0, 100.0);
    assert BlendVelocity(0.0, 50.0, 100.0) == 4.58425;
    assert BlendVelocity(0.0, 30.0, 100.0) == 2.75055;
  }
}
