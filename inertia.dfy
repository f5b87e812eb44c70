/** The inertia controller of app.js's animate: after a fast drag release the
    velocity decays by 0.92 per frame until both components are below 0.03,
    when coasting ends with the velocity exactly zero. */
module Inertia {
  import opened PanZoom
  import opened Decay

  /** Per-frame decay of the coasting velocity. */
  const Friction: real := 0.92
  /** Coasting stops once both velocity components are below this (px per frame). */
  const StopSpeed: real := 0.03

  datatype Vec = Vec(x: real, y: real)
  /** Coasting on or off, and the velocity it uses. */
  datatype Momentum = Momentum(active: bool, velocity: Vec)

  function ScaleVec(v: Vec, k: real): Vec { Vec(v.x * k, v.y * k) }
  predicate Negligible(v: Vec) { Abs(v.x) < StopSpeed && Abs(v.y) < StopSpeed }

  /** One frame of the velocity: idle momentum is left alone; coasting
      momentum decays, and is switched off and zeroed once negligible. */
  function DecayStep(m: Momentum): (r: Momentum)
    ensures !m.active ==> r == m
    ensures m.active ==>
      (if Negligible(ScaleVec(m.velocity, Friction)) then r == Momentum(false, Vec(0.0, 0.0))
       else r == Momentum(true, ScaleVec(m.velocity, Friction)))
  {
    if !m.active then m
    else
      var v := ScaleVec(m.velocity, Friction);
      if Negligible(v) then Momentum(false, Vec(0.0, 0.0)) else Momentum(true, v)
  }

  /** The momentum after n frames. */
  function DecayAfter(m: Momentum, n: nat): Momentum
  {
    if n == 0 then m else DecayStep(DecayAfter(m, n - 1))
  }

  /** `x` decayed by 0.92 on each of n frames. */
  function Decayed(x: real, n: nat): real
  {
    if n == 0 then x else Friction * Decayed(x, n - 1)
  }

  /** Decaying n times is multiplying by 0.92^n. */
  lemma {:induction false} DecayedIsPow(x: real, n: nat)
    ensures Decayed(x, n) == x * Pow(Friction, n)
  {
    if n > 0 {
      DecayedIsPow(x, n - 1);
      assert Friction * (x * Pow(Friction, n - 1)) == x * (Friction * Pow(Friction, n - 1));
    }
  }

  /** The velocity v decayed by n frames. */
  function DecayedVec(v: Vec, n: nat): (r: Vec)
    ensures r == ScaleVec(v, Pow(Friction, n))
  {
    DecayedIsPow(v.x, n);
    DecayedIsPow(v.y, n);
    Vec(Decayed(v.x, n), Decayed(v.y, n))
  }

  /** Coasting from velocity v: after n frames either coasting has ended with
      zero velocity, or it goes on with velocity v * 0.92^n, which is not yet
      negligible. */
  lemma {:induction false} CoastingDichotomy(v: Vec, n: nat)
    ensures var m := DecayAfter(Momentum(true, v), n);
      || m == Momentum(false, Vec(0.0, 0.0))
      || (m == Momentum(true, DecayedVec(v, n)) && (n > 0 ==> !Negligible(m.velocity)))
  {
    if n > 0 {
      CoastingDichotomy(v, n - 1);
      var m := DecayAfter(Momentum(true, v), n - 1);
      if m.active {
        assert ScaleVec(m.velocity, Friction) == DecayedVec(v, n);
      }
    }
  }

  /** Geometric decay: as long as no frame's velocity has become negligible,
      coasting goes on and the velocity after n frames is v * 0.92^n. */
  lemma {:induction false} DecaysGeometrically(v: Vec, n: nat)
    requires forall k :: 1 <= k <= n ==> !Negligible(DecayedVec(v, k))
    ensures DecayAfter(Momentum(true, v), n) == Momentum(true, DecayedVec(v, n))
  {
    if n > 0 {
      DecaysGeometrically(v, n - 1);
      assert ScaleVec(DecayedVec(v, n - 1), Friction) == DecayedVec(v, n);
      assert !Negligible(DecayedVec(v, n));
    }
  }

  /** Coasting ends exactly at the first frame whose decayed velocity is
      negligible, and then the velocity is zero. */
  lemma StopsAtFirstNegligibleFrame(v: Vec, n: nat)
    requires n >= 1
    requires forall k :: 1 <= k < n ==> !Negligible(DecayedVec(v, k))
    requires Negligible(DecayedVec(v, n))
    ensures DecayAfter(Momentum(true, v), n) == Momentum(false, Vec(0.0, 0.0))
  {
    DecaysGeometrically(v, n - 1);
    assert ScaleVec(DecayedVec(v, n - 1), Friction) == DecayedVec(v, n);
  }

  /** Idle momentum stays idle. */
  lemma {:induction false} IdleStaysIdle(m: Momentum, n: nat)
    requires !m.active
    ensures DecayAfter(m, n) == m
  {
    if n > 0 {
      IdleStaysIdle(m, n - 1);
    }
  }

  /** A component no larger than e decays below the stop speed once e does. */
  lemma DecayedComponentSmall(x: real, e: real, n: nat)
    requires Abs(x) <= e && e * Pow(Friction, n) < StopSpeed
    ensures Abs(Decayed(x, n)) < StopSpeed
  {
    var p := Pow(Friction, n);
    PowUnit(Friction, n);
    DecayedIsPow(x, n);
    AbsScale(x, p);
    MulLeRight(Abs(x), e, p);
  }

  /** Some frame count n >= 1 makes v * 0.92^n negligible. */
  lemma DecayedBecomesNegligible(v: Vec) returns (n: nat)
    ensures n >= 1 && Negligible(DecayedVec(v, n))
  {
    var e := Abs(v.x) + Abs(v.y);
    n := EventuallyBelow(e, Friction, StopSpeed);
    DecayedComponentSmall(v.x, e, n);
    DecayedComponentSmall(v.y, e, n);
  }

  /** Coasting always ends after finitely many frames. */
  lemma EventuallyStops(v: Vec) returns (n: nat)
    ensures DecayAfter(Momentum(true, v), n) == Momentum(false, Vec(0.0, 0.0))
  {
    n := DecayedBecomesNegligible(v);
    CoastingDichotomy(v, n);
  }
}
