/** The engine of app.js as the page runs it: one mutable state object whose
    handlers update its fields in place, each proved to perform exactly the
    transition of the corresponding function in MapViewState. */
module MapViewEngine {
  import opened Optional
  import opened PanZoom
  import opened Inertia
  import opened Smoothing
  import opened MapViewState

  class MapView {
    var scale: real
    var tx: real
    var ty: real
    var scaleTarget: real
    var txTarget: real
    var tyTarget: real
    var dragging: bool
    var dragMoved: bool
    var dragStart: DragStart
    var dragMetrics: DragSample
    var pinch: Option<Pinch>
    var velocity: Vec
    var inertiaActive: bool

    /** The fields as a value. */
    function Snapshot(): View
      reads this
    {
      View(scale, tx, ty, scaleTarget, txTarget, tyTarget, dragging, dragMoved,
           dragStart, dragMetrics, pinch, velocity, inertiaActive)
    }

    constructor()
      ensures Snapshot() == Initial()
    {
      scale, tx, ty := 1.0, 0.0, 0.0;
      scaleTarget, txTarget, tyTarget := 1.0, 0.0, 0.0;
      dragging, dragMoved := false, false;
      dragStart := DragStart(0.0, 0.0, 0.0, 0.0);
      dragMetrics := DragSample(0.0, 0.0, 0.0);
      pinch := None;
      velocity := Vec(0.0, 0.0);
      inertiaActive := false;
    }

    /** clampTargetsToBounds. */
    method ClampTargetsToBounds(g: Geometry)
      modifies this
      ensures Snapshot() == ClampTargets(old(Snapshot()), g)
    {
      var b := GetPanBounds(g.viewport, g.image, scaleTarget);
      txTarget, tyTarget := Clamp(txTarget, b.minTx, b.maxTx), Clamp(tyTarget, b.minTy, b.maxTy);
    }

    /** The target assignments before a clamp. */
    method Retarget(t: Transform)
      modifies this
      ensures Snapshot() == MapViewState.Retarget(old(Snapshot()), t)
    {
      scaleTarget, txTarget, tyTarget := t.scale, t.tx, t.ty;
    }

    /** Render the target at once. */
    method ShowTarget()
      modifies this
      ensures Snapshot() == MapViewState.ShowTarget(old(Snapshot()))
    {
      tx, ty, scale := txTarget, tyTarget, scaleTarget;
    }

    /** Cancel coasting. */
    method Halt()
      modifies this
      ensures Snapshot() == MapViewState.Halt(old(Snapshot()))
    {
      velocity, inertiaActive := Vec(0.0, 0.0), false;
    }

    /** fitToViewportOnce. */
    method FitToViewportOnce(g: Geometry)
      modifies this
      ensures Snapshot() == Fit(old(Snapshot()), g)
    {
      if g.image.w == 0.0 || g.image.h == 0.0 {
        return;
      }
      Retarget(Centred(g));
      ClampTargetsToBounds(g);
      ShowTarget();
      Halt();
    }

    /** onWheel, with the cursor position in client coordinates. */
    method OnWheel(g: Geometry, deltaY: real, client: Point)
      requires Valid(Snapshot())
      modifies this
      ensures Snapshot() == Wheel(old(Snapshot()), g, deltaY, client)
    {
      var newScale := Clamp(scaleTarget * ZoomFactor(deltaY), MinScale, MaxScale);
      Retarget(ZoomAt(Transform(scaleTarget, txTarget, tyTarget), client, g.viewport, newScale));
      ClampTargetsToBounds(g);
      inertiaActive := false;
    }

    /** onPointerDown; `onMarker` says whether the press landed on a marker. */
    method OnPointerDown(button: int, onMarker: bool, client: Point, now: real)
      modifies this
      ensures Snapshot() == PointerDown(old(Snapshot()), button, onMarker, client, now)
    {
      if button != 0 || pinch.Some? || onMarker {
        return;
      }
      dragging, dragMoved := true, false;
      Halt();
      dragStart := DragStart(client.x, client.y, txTarget, tyTarget);
      dragMetrics := DragSample(client.x, client.y, now);
    }

    /** The drag's pan assignments. */
    method FollowPointer(client: Point)
      modifies this
      ensures Snapshot() == MapViewState.FollowPointer(old(Snapshot()), client)
    {
      var dx := client.x - dragStart.x;
      var dy := client.y - dragStart.y;
      txTarget, tyTarget := dragStart.tx + dx, dragStart.ty + dy;
    }

    /** Set the moved flag past the 2 px threshold. */
    method LatchMoved(client: Point)
      modifies this
      ensures Snapshot() == MapViewState.LatchMoved(old(Snapshot()), client)
    {
      var dx := client.x - dragStart.x;
      var dy := client.y - dragStart.y;
      if Abs(dx) > DragThreshold || Abs(dy) > DragThreshold {
        dragMoved := true;
      }
    }

    /** Fold the pointer sample into the velocity average. */
    method SampleVelocity(client: Point, now: real)
      modifies this
      ensures Snapshot() == MapViewState.SampleVelocity(old(Snapshot()), client, now)
    {
      var elapsed := now - dragMetrics.t;
      velocity := Vec(BlendVelocity(velocity.x, client.x - dragMetrics.x, elapsed),
                      BlendVelocity(velocity.y, client.y - dragMetrics.y, elapsed));
      dragMetrics := DragSample(client.x, client.y, now);
    }

    /** onPointerMove, with the event's timestamp passed in. */
    method OnPointerMove(g: Geometry, client: Point, now: real)
      modifies this
      ensures Snapshot() == PointerMove(old(Snapshot()), g, client, now)
    {
      if !dragging || pinch.Some? {
        return;
      }
      FollowPointer(client);
      ClampTargetsToBounds(g);
      LatchMoved(client);
      SampleVelocity(client, now);
      ShowTarget();
    }

    /** onPointerUp, also bound to pointercancel. */
    method OnPointerUp()
      modifies this
      ensures Snapshot() == PointerUp(old(Snapshot()))
    {
      if dragging {
        inertiaActive := SpeedSquared(velocity) > InertiaMinSpeedSq;
      }
      dragging := false;
    }

    /** The touchstart handler; `dist` is the distance of the first two touches. */
    method OnTouchStart(touches: seq<Point>, dist: real)
      requires |touches| == 2 ==> IsDistance(dist, touches[0], touches[1])
      modifies this
      ensures Snapshot() == TouchStart(old(Snapshot()), touches, dist)
    {
      if |touches| != 2 {
        return;
      }
      var a, b := touches[0], touches[1];
      pinch := Some(Pinch(dist, scaleTarget, (a.x + b.x) / 2.0, (a.y + b.y) / 2.0));
      dragging, inertiaActive, velocity := false, false, Vec(0.0, 0.0);
    }

    /** The touchmove handler; `dist` is the distance of the two touches. */
    method OnTouchMove(g: Geometry, touches: seq<Point>, dist: real)
      requires Valid(Snapshot())
      requires |touches| == 2 ==> IsDistance(dist, touches[0], touches[1])
      requires pinch.Some? ==> pinch.value.startDist > 0.0
      modifies this
      ensures Snapshot() == TouchMove(old(Snapshot()), g, touches, dist)
    {
      if pinch.None? || |touches| != 2 {
        return;
      }
      var p := pinch.value;
      Retarget(ZoomAt(Transform(scaleTarget, txTarget, tyTarget), PinchCenter(p), g.viewport, PinchScale(p, dist)));
      ClampTargetsToBounds(g);
      ShowTarget();
    }

    /** The touchend handler; `remaining` is the number of touches left. */
    method OnTouchEnd(remaining: nat)
      modifies this
      ensures Snapshot() == TouchEnd(old(Snapshot()), remaining)
    {
      if remaining < 2 {
        pinch := None;
      }
    }

    /** Move the target by the velocity. */
    method Push()
      modifies this
      ensures Snapshot() == MapViewState.Push(old(Snapshot()))
    {
      txTarget, tyTarget := txTarget + velocity.x, tyTarget + velocity.y;
    }

    /** Apply one frame of friction. */
    method Brake()
      modifies this
      ensures Snapshot() == MapViewState.Brake(old(Snapshot()))
    {
      velocity := Vec(velocity.x * Friction, velocity.y * Friction);
    }

    /** End coasting once the velocity is negligible. */
    method StopIfSlow()
      modifies this
      ensures Snapshot() == MapViewState.StopIfSlow(old(Snapshot()))
    {
      if Abs(velocity.x) < StopSpeed && Abs(velocity.y) < StopSpeed {
        inertiaActive := false;
        velocity := Vec(0.0, 0.0);
      }
    }

    /** Ease the rendered transform towards the target. */
    method Interpolate()
      modifies this
      ensures Snapshot() == MapViewState.Interpolate(old(Snapshot()))
    {
      var pf := PositionFactor(dragging || pinch.Some?);
      var sf := ScaleFactor(dragging || pinch.Some?);
      tx, ty, scale := tx + (txTarget - tx) * pf, ty + (tyTarget - ty) * pf, scale + (scaleTarget - scale) * sf;
    }

    /** Snap onto the target when the residual is below 0.0005. */
    method SnapIfClose()
      modifies this
      ensures Snapshot() == MapViewState.SnapIfClose(old(Snapshot()))
    {
      var delta := Abs(txTarget - tx) + Abs(tyTarget - ty) + Abs(scaleTarget - scale);
      if delta < SnapEpsilon {
        tx, ty, scale := txTarget, tyTarget, scaleTarget;
      }
    }

    /** One animation frame, without the rescheduling. */
    method Animate(g: Geometry)
      modifies this
      ensures Snapshot() == MapViewState.Animate(old(Snapshot()), g)
    {
      if !dragging && pinch.None? && inertiaActive {
        Push();
        Brake();
        ClampTargetsToBounds(g);
        StopIfSlow();
      }
      Interpolate();
      SnapIfClose();
    }
  }
}
