/** The interpolation and snapping of app.js's animate: each frame the
    rendered transform moves a fixed fraction of the way to the target, and
    lands on it exactly once the summed residual is below 0.0005. */
module Smoothing {
  import opened PanZoom
  import opened Decay

  /** Interpolation factors: while a drag or pinch is active, and when settling. */
  const GestureLerp: real := 0.5
  const PositionLerp: real := 0.2
  const ScaleLerp: real := 0.18
  /** The largest fraction of the residual a frame can leave (1 - 0.18). */
  const SlowestKeep: real := 0.82
  const SnapEpsilon: real := 0.0005

  function PositionFactor(gesturing: bool): real { if gesturing then GestureLerp else PositionLerp }
  function ScaleFactor(gesturing: bool): real { if gesturing then GestureLerp else ScaleLerp }

  /** Summed distance of `r` from `t` over translation and scale. */
  function Residual(r: Transform, t: Transform): real
  {
    Abs(t.tx - r.tx) + Abs(t.ty - r.ty) + Abs(t.scale - r.scale)
  }

  /** Interpolation: each component keeps the fraction (1 - factor) of its
      distance from the target. */
  function Approach(r: Transform, t: Transform, gesturing: bool): (a: Transform)
    ensures t.tx - a.tx == (t.tx - r.tx) * (1.0 - PositionFactor(gesturing))
    ensures t.ty - a.ty == (t.ty - r.ty) * (1.0 - PositionFactor(gesturing))
    ensures t.scale - a.scale == (t.scale - r.scale) * (1.0 - ScaleFactor(gesturing))
  {
    var pf, sf := PositionFactor(gesturing), ScaleFactor(gesturing);
    Transform(r.scale + (t.scale - r.scale) * sf, r.tx + (t.tx - r.tx) * pf, r.ty + (t.ty - r.ty) * pf)
  }

  /** The rendered transform after one frame: interpolated, then snapped
      onto the target when close. Either it is on the target or it is still
      at least 0.0005 away. */
  function Settle(r: Transform, t: Transform, gesturing: bool): (s: Transform)
    ensures s == t || SnapEpsilon <= Residual(s, t)
    ensures Residual(Approach(r, t, gesturing), t) < SnapEpsilon ==> s == t
    ensures SnapEpsilon <= Residual(Approach(r, t, gesturing), t) ==> s == Approach(r, t, gesturing)
  {
    var a := Approach(r, t, gesturing);
    if Residual(a, t) < SnapEpsilon then t else a
  }

  /** A rendered transform on its target stays there. */
  lemma SettleFixedPoint(t: Transform, gesturing: bool)
    ensures Settle(t, t, gesturing) == t
  {
  }

  /** One component keeps at most 82% of its distance. */
  lemma ComponentContracts(e: real, k: real)
    requires 0.0 <= k <= SlowestKeep
    ensures Abs(e * k) <= SlowestKeep * Abs(e)
  {
    AbsScale(e, k);
    MulLeRight(k, SlowestKeep, Abs(e));
  }

  /** Interpolation removes at least 18% of the residual every frame. */
  lemma ApproachContracts(r: Transform, t: Transform, gesturing: bool)
    ensures Residual(Approach(r, t, gesturing), t) <= SlowestKeep * Residual(r, t)
  {
    var a := Approach(r, t, gesturing);
    var kp, ks := 1.0 - PositionFactor(gesturing), 1.0 - ScaleFactor(gesturing);
    ComponentContracts(t.tx - r.tx, kp);
    ComponentContracts(t.ty - r.ty, kp);
    ComponentContracts(t.scale - r.scale, ks);
    assert Abs(t.tx - a.tx) <= SlowestKeep * Abs(t.tx - r.tx);
    assert Abs(t.ty - a.ty) <= SlowestKeep * Abs(t.ty - r.ty);
    assert Abs(t.scale - a.scale) <= SlowestKeep * Abs(t.scale - r.scale);
  }

  /** A frame never moves the rendered transform away from the target. */
  lemma SettleNeverRecedes(r: Transform, t: Transform, gesturing: bool)
    ensures Residual(Settle(r, t, gesturing), t) <= Residual(r, t)
  {
    ApproachContracts(r, t, gesturing);
    assert 0.0 <= SlowestKeep * Residual(r, t) <= Residual(r, t);
  }

  /** x lies on the closed segment between a and b. */
  predicate Between(x: real, a: real, b: real)
  {
    (a <= x <= b) || (b <= x <= a)
  }

  /** A fraction e = d * k, with k in [0, 1], of a distance d >= 0 lies in [0, d]. */
  lemma FractionOf(e: real, d: real, k: real)
    requires 0.0 <= k <= 1.0 && 0.0 <= d && e == d * k
    ensures 0.0 <= e <= d
  {
    MulNonneg(d, k);
    MulNonneg(d, 1.0 - k);
    assert d * (1.0 - k) == d - d * k;
  }

  /** One interpolated component stays between where it was and its target. */
  lemma KeptFractionBetween(x: real, a: real, b: real, k: real)
    requires 0.0 <= k <= 1.0 && b - x == (b - a) * k
    ensures Between(x, a, b)
  {
    if a <= b {
      FractionOf(b - x, b - a, k);
    } else {
      assert (b - a) * k == -((a - b) * k);
      FractionOf(x - b, a - b, k);
    }
  }

  /** A frame never passes the target: each component of the rendered
      transform ends between its old value and the target's. */
  lemma SettleNeverOvershoots(r: Transform, t: Transform, gesturing: bool)
    ensures var s := Settle(r, t, gesturing);
      Between(s.tx, r.tx, t.tx) && Between(s.ty, r.ty, t.ty) && Between(s.scale, r.scale, t.scale)
  {
    var a := Approach(r, t, gesturing);
    KeptFractionBetween(a.tx, r.tx, t.tx, 1.0 - PositionFactor(gesturing));
    KeptFractionBetween(a.ty, r.ty, t.ty, 1.0 - PositionFactor(gesturing));
    KeptFractionBetween(a.scale, r.scale, t.scale, 1.0 - ScaleFactor(gesturing));
  }

  /** The rendered transform after n frames towards a fixed target. */
  function SettleAfter(r: Transform, t: Transform, gesturing: bool, n: nat): Transform
  {
    if n == 0 then r else Settle(SettleAfter(r, t, gesturing, n - 1), t, gesturing)
  }

  /** One frame from within `bound` of the target ends on it or within 0.82 of `bound`. */
  lemma SettleStep(f: Transform, t: Transform, gesturing: bool, bound: real)
    requires Residual(f, t) <= bound
    ensures Settle(f, t, gesturing) == t || Residual(Settle(f, t, gesturing), t) <= SlowestKeep * bound
  {
    ApproachContracts(f, t, gesturing);
  }

  /** `e` shrunk by the factor 0.82 on each of n frames. */
  function Shrunk(e: real, n: nat): real
  {
    if n == 0 then e else SlowestKeep * Shrunk(e, n - 1)
  }

  /** Shrinking n times is multiplying by 0.82^n. */
  lemma {:induction false} ShrunkIsPow(e: real, n: nat)
    ensures Shrunk(e, n) == e * Pow(SlowestKeep, n)
  {
    if n > 0 {
      ShrunkIsPow(e, n - 1);
      assert SlowestKeep * (e * Pow(SlowestKeep, n - 1)) == e * (SlowestKeep * Pow(SlowestKeep, n - 1));
    }
  }

  /** Any e >= 0 shrinks below any eps > 0 within finitely many (at least one) frames. */
  lemma ShrunkBelow(e: real, eps: real) returns (n: nat)
    requires e >= 0.0 && eps > 0.0
    ensures n >= 1 && Shrunk(e, n) < eps
  {
    n := EventuallyBelow(e, SlowestKeep, eps);
    ShrunkIsPow(e, n);
  }

  /** After n frames the rendered transform is on the target or within
      0.82^n of the initial residual. */
  lemma {:induction false} SettleProgress(r: Transform, t: Transform, gesturing: bool, n: nat)
    ensures var f := SettleAfter(r, t, gesturing, n);
      f == t || Residual(f, t) <= Shrunk(Residual(r, t), n)
  {
    if n > 0 {
      SettleProgress(r, t, gesturing, n - 1);
      var f := SettleAfter(r, t, gesturing, n - 1);
      if f == t {
        SettleFixedPoint(t, gesturing);
      } else {
        SettleStep(f, t, gesturing, Shrunk(Residual(r, t), n - 1));
      }
    }
  }

  /** The rendered transform reaches the target exactly after finitely many frames. */
  lemma ReachesTarget(r: Transform, t: Transform, gesturing: bool) returns (n: nat)
    ensures SettleAfter(r, t, gesturing, n) == t
  {
    n := ShrunkBelow(Residual(r, t), SnapEpsilon);
    SettleProgress(r, t, gesturing, n);
    var f := SettleAfter(r, t, gesturing, n);
    assert f == Settle(SettleAfter(r, t, gesturing, n - 1), t, gesturing);
    assert f == t || SnapEpsilon <= Residual(f, t);
  }

  /** Once on the target, the rendered transform stays there for any number of frames. */
  lemma {:induction false} StaysOnTarget(t: Transform, gesturing: bool, n: nat)
    ensures SettleAfter(t, t, gesturing, n) == t
  {
    if n > 0 {
      StaysOnTarget(t, gesturing, n - 1);
    }
  }
}
