/**
 * One animation step of one mosquito (`updateMosquito`), as a function of the
 * mosquito, the engine's scene (cursor, canvas, speed multiplier), the
 * elapsed time and the noise drawn for it, followed by what the step
 * guarantees: the follow decision, the forces, the speed cap, the canvas
 * bounds, the bounces and the heading.
 */
module Physics {
  import opened Geometry
  import opened Mosquitoes

  /** A mosquito follows the cursor when it is closer than this. */
  const FollowRadius: real := 100.0
  /** Speed cap at speed multiplier 1. */
  const MaxSpeed: real := 2.0
  /** Wing beat phase advanced per unit of elapsed time. */
  const WingBeatRate: real := 20.0
  /** Magnitude of the pull toward the cursor. */
  const FollowForce: real := 0.5
  /** Scale of the random wander force. */
  const NoiseStrength: real := 0.3
  /** Magnitude of the pull toward the canvas centre. */
  const CenterForce: real := 0.05
  /** Fraction of the speed kept by a bounce off a canvas edge. */
  const Restitution: real := 0.8
  /** Positions advance by `velocity * dt * 60`: velocities are per frame at 60 frames a second. */
  const ReferenceFps: real := 60.0

  /** The engine state one step reads. */
  datatype Scene = Scene(mouse: Vector2D, width: real, height: real, speedMultiplier: real)

  function Center(s: Scene): Vector2D
  {
    Vector2D(s.width / 2.0, s.height / 2.0)
  }

  /** The wander force from two `Math.random()` draws: `(u - 0.5) * 0.3` per axis. */
  function Jitter(noise: Vector2D): (r: Vector2D)
    ensures 0.0 <= noise.x < 1.0 ==> -NoiseStrength / 2.0 <= r.x < NoiseStrength / 2.0
    ensures 0.0 <= noise.y < 1.0 ==> -NoiseStrength / 2.0 <= r.y < NoiseStrength / 2.0
  {
    Vector2D((noise.x - 0.5) * NoiseStrength, (noise.y - 0.5) * NoiseStrength)
  }

  /** The follow decision: the root of the squared distance to the cursor is below the radius. */
  function Follows(p: Vector2D, mouse: Vector2D, sqrt: real -> real): bool
  {
    sqrt(Dist2(p, mouse)) < FollowRadius
  }

  /**
   * The acceleration of a step, built from zero: the pull toward the cursor
   * for a follower, otherwise the wander force plus the pull toward the centre.
   */
  function Steering(p: Vector2D, follow: bool, s: Scene, noise: Vector2D, sqrt: real -> real): Vector2D
  {
    if follow then Toward(p, s.mouse, FollowForce, sqrt)
    else Add(Jitter(noise), Toward(p, Center(s), CenterForce, sqrt))
  }

  /** A velocity faster than `cap` is rescaled to length `cap`; any other is kept. */
  function CapSpeed(v: Vector2D, cap: real, sqrt: real -> real): Vector2D
    requires cap >= 0.0
  {
    var speed := sqrt(Norm2(v));
    if speed > cap then Resize(v, speed, cap) else v
  }

  /** A velocity within the cap is left as it is. */
  lemma CapSpeedKeep(v: Vector2D, cap: real, sqrt: real -> real)
    requires IsSqrt(sqrt) && cap >= 0.0 && Norm2(v) <= Sq(cap)
    ensures CapSpeed(v, cap, sqrt) == v
  {
    SqrtCompare(sqrt, Norm2(v), cap);
  }

  /** A velocity over the cap is cut to exactly the cap, keeping its direction. */
  lemma CapSpeedCut(v: Vector2D, cap: real, sqrt: real -> real)
    requires IsSqrt(sqrt) && cap >= 0.0 && Norm2(v) > Sq(cap)
    ensures var r := CapSpeed(v, cap, sqrt);
      Norm2(r) == Sq(cap) && Cross(r, v) == 0.0 && Dot(r, v) >= 0.0
  {
    SqrtCompare(sqrt, Norm2(v), cap);
    ResizeLength(v, sqrt(Norm2(v)), cap);
  }

  /** A capped velocity is never faster than the cap. */
  lemma CapSpeedBound(v: Vector2D, cap: real, sqrt: real -> real)
    requires IsSqrt(sqrt) && cap >= 0.0
    ensures Norm2(CapSpeed(v, cap, sqrt)) <= Sq(cap)
  {
    if Norm2(v) > Sq(cap) {
      CapSpeedCut(v, cap, sqrt);
    } else {
      CapSpeedKeep(v, cap, sqrt);
    }
  }

  /**
   * One axis of the boundary handling: below zero the coordinate is set to
   * zero and the speed along the axis made positive and damped; then, beyond
   * `extent`, it is set to `extent` and the speed made negative and damped.
   */
  function BounceAxis(p: real, v: real, extent: real): (r: (real, real))
    ensures extent >= 0.0 ==> 0.0 <= r.0 <= extent
    ensures Abs(r.1) <= Abs(v)
    ensures 0.0 <= p <= extent ==> r == (p, v)
    ensures extent >= 0.0 && r.0 > p ==> r.1 >= 0.0
    ensures extent >= 0.0 && r.0 < p ==> r.1 <= 0.0
    ensures extent >= 0.0 && p < 0.0 ==> r == (0.0, Abs(v) * Restitution)
    ensures p > extent && extent >= 0.0 ==> r == (extent, -Abs(v) * Restitution)
  {
    var low := if p < 0.0 then (0.0, Abs(v) * Restitution) else (p, v);
    if low.0 > extent then (extent, -Abs(low.1) * Restitution) else low
  }

  /** The heading follows the velocity, and is kept when the velocity is zero. */
  function Heading(angle: real, v: Vector2D, atan2: (real, real) -> real): real
  {
    if v.x != 0.0 || v.y != 0.0 then atan2(v.y, v.x) else angle
  }

  /** The clocks of a step: time alive and wing beat phase advance with `dt`. */
  function Clocked(m: Mosquito, dt: real): Mosquito
  {
    m.(timeAlive := m.timeAlive + dt, wingBeat := m.wingBeat + dt * WingBeatRate)
  }

  /** The steering of a step: the follow decision and the acceleration built from zero. */
  function Steered(m: Mosquito, s: Scene, noise: Vector2D, sqrt: real -> real): Mosquito
  {
    var follow := Follows(m.position, s.mouse, sqrt);
    m.(followCursor := follow, acceleration := Steering(m.position, follow, s, noise, sqrt))
  }

  /** The velocity after the acceleration is applied and the speed capped. */
  function CappedVelocity(m: Mosquito, s: Scene, dt: real, sqrt: real -> real): Vector2D
    requires s.speedMultiplier >= 0.0
  {
    CapSpeed(Integrate(m.velocity, m.acceleration, dt, s.speedMultiplier), MaxSpeed * s.speedMultiplier, sqrt)
  }

  /** The flight of a step: new velocity, then the position it carries the mosquito to. */
  function Flown(m: Mosquito, s: Scene, dt: real, sqrt: real -> real): Mosquito
    requires s.speedMultiplier >= 0.0
  {
    var v := CappedVelocity(m, s, dt, sqrt);
    m.(velocity := v, position := Integrate(m.position, v, dt, ReferenceFps))
  }

  /** The boundary handling of a step, one axis at a time. */
  function Bounced(m: Mosquito, width: real, height: real): Mosquito
  {
    var onX := BounceAxis(m.position.x, m.velocity.x, width);
    var onY := BounceAxis(m.position.y, m.velocity.y, height);
    m.(position := Vector2D(onX.0, onY.0), velocity := Vector2D(onX.1, onY.1))
  }

  /** The heading of a step. */
  function Headed(m: Mosquito, atan2: (real, real) -> real): Mosquito
  {
    m.(angle := Heading(m.angle, m.velocity, atan2))
  }

  /** The velocity a step flies with, before the boundary handling. */
  function FlightVelocity(m: Mosquito, s: Scene, dt: real, noise: Vector2D, sqrt: real -> real): Vector2D
    requires s.speedMultiplier >= 0.0
  {
    Flown(Steered(m, s, noise, sqrt), s, dt, sqrt).velocity
  }

  /** The position the new velocity carries the mosquito to, before the boundary handling. */
  function FlightPosition(m: Mosquito, s: Scene, dt: real, noise: Vector2D, sqrt: real -> real): Vector2D
    requires s.speedMultiplier >= 0.0
  {
    Flown(Steered(m, s, noise, sqrt), s, dt, sqrt).position
  }

  /**
   * The mosquito after one step of `dt` in scene `s`: clocks advanced, follow
   * decision and acceleration recomputed, velocity integrated and capped,
   * position integrated and bounced off the canvas edges, heading updated.
   * Identity, size and target are never touched.
   */
  function Stepped(m: Mosquito, s: Scene, dt: real, noise: Vector2D,
                   sqrt: real -> real, atan2: (real, real) -> real): (r: Mosquito)
    requires s.speedMultiplier >= 0.0
    ensures r.id == m.id && r.size == m.size && r.targetPosition == m.targetPosition
    ensures r.timeAlive == m.timeAlive + dt && r.wingBeat == m.wingBeat + dt * WingBeatRate
  {
    Headed(Bounced(Flown(Steered(Clocked(m, dt), s, noise, sqrt), s, dt, sqrt), s.width, s.height), atan2)
  }

  /**
   * The steering of a follower: no pull when it sits on the cursor,
   * otherwise a pull of exactly `FollowForce` along the line to the cursor
   * and toward it.
   */
  lemma FollowPull(p: Vector2D, s: Scene, noise: Vector2D, sqrt: real -> real)
    requires IsSqrt(sqrt)
    ensures Dist2(p, s.mouse) == 0.0 ==> Steering(p, true, s, noise, sqrt) == Zero
    ensures var a := Steering(p, true, s, noise, sqrt);
      Dist2(p, s.mouse) > 0.0 ==>
        Norm2(a) == Sq(FollowForce)
        && Cross(a, Delta(p, s.mouse)) == 0.0
        && Dot(a, Delta(p, s.mouse)) >= 0.0
  {
    if Dist2(p, s.mouse) == 0.0 {
      TowardZero(p, s.mouse, FollowForce, sqrt);
    } else {
      TowardLength(p, s.mouse, FollowForce, sqrt);
    }
  }

  /**
   * The steering of a mosquito that does not follow: the wander force plus
   * a pull of exactly `CenterForce` toward the canvas centre, or no pull
   * when it sits on the centre.
   */
  lemma WanderForce(p: Vector2D, s: Scene, noise: Vector2D, sqrt: real -> real)
    requires IsSqrt(sqrt)
    ensures Dist2(p, Center(s)) == 0.0 ==> Steering(p, false, s, noise, sqrt) == Jitter(noise)
    ensures var a := Steering(p, false, s, noise, sqrt);
      var pull := Vector2D(a.x - Jitter(noise).x, a.y - Jitter(noise).y);
      Dist2(p, Center(s)) > 0.0 ==>
        Norm2(pull) == Sq(CenterForce)
        && Cross(pull, Delta(p, Center(s))) == 0.0
        && Dot(pull, Delta(p, Center(s))) >= 0.0
  {
    var pull := Toward(p, Center(s), CenterForce, sqrt);
    var a := Steering(p, false, s, noise, sqrt);
    assert Vector2D(a.x - Jitter(noise).x, a.y - Jitter(noise).y) == pull;
    if Dist2(p, Center(s)) == 0.0 {
      TowardZero(p, Center(s), CenterForce, sqrt);
    } else {
      TowardLength(p, Center(s), CenterForce, sqrt);
    }
  }

  /**
   * A step decides to follow exactly when the squared distance to the
   * cursor is below the squared radius, and steers by that decision from
   * the position the mosquito had before the step.
   */
  lemma SteppedSteering(m: Mosquito, s: Scene, dt: real, noise: Vector2D,
                        sqrt: real -> real, atan2: (real, real) -> real)
    requires IsSqrt(sqrt) && s.speedMultiplier >= 0.0
    ensures var r := Stepped(m, s, dt, noise, sqrt, atan2);
      r.followCursor <==> Dist2(m.position, s.mouse) < Sq(FollowRadius)
    ensures var r := Stepped(m, s, dt, noise, sqrt, atan2);
      r.acceleration == Steering(m.position, r.followCursor, s, noise, sqrt)
  {
    SqrtCompare(sqrt, Dist2(m.position, s.mouse), FollowRadius);
  }

  /** On a canvas of non-negative size every step ends on the canvas. */
  lemma SteppedInCanvas(m: Mosquito, s: Scene, dt: real, noise: Vector2D,
                        sqrt: real -> real, atan2: (real, real) -> real)
    requires s.speedMultiplier >= 0.0
    requires s.width >= 0.0 && s.height >= 0.0
    ensures var r := Stepped(m, s, dt, noise, sqrt, atan2);
      0.0 <= r.position.x <= s.width && 0.0 <= r.position.y <= s.height
  {
  }

  /** No step leaves a mosquito faster than `MaxSpeed` times the speed multiplier. */
  lemma SteppedSpeed(m: Mosquito, s: Scene, dt: real, noise: Vector2D,
                     sqrt: real -> real, atan2: (real, real) -> real)
    requires IsSqrt(sqrt) && s.speedMultiplier >= 0.0
    ensures Norm2(Stepped(m, s, dt, noise, sqrt, atan2).velocity) <= Sq(MaxSpeed * s.speedMultiplier)
  {
    var r := Stepped(m, s, dt, noise, sqrt, atan2);
    var vel := FlightVelocity(m, s, dt, noise, sqrt);
    var acc := Steering(m.position, Follows(m.position, s.mouse, sqrt), s, noise, sqrt);
    CapSpeedBound(Integrate(m.velocity, acc, dt, s.speedMultiplier), MaxSpeed * s.speedMultiplier, sqrt);
    SqMonotone(r.velocity.x, vel.x);
    SqMonotone(r.velocity.y, vel.y);
  }

  /**
   * Where the boundary handling moved a coordinate, the velocity along that
   * axis now points back into the canvas with `Restitution` of its speed;
   * a coordinate already on the canvas keeps both its position and its speed.
   */
  lemma SteppedBounce(m: Mosquito, s: Scene, dt: real, noise: Vector2D,
                      sqrt: real -> real, atan2: (real, real) -> real)
    requires s.speedMultiplier >= 0.0
    requires s.width >= 0.0 && s.height >= 0.0
    ensures var r := Stepped(m, s, dt, noise, sqrt, atan2);
      var p := FlightPosition(m, s, dt, noise, sqrt);
      var v := FlightVelocity(m, s, dt, noise, sqrt);
      && (r.position.x > p.x ==> r.velocity.x >= 0.0)
      && (r.position.x < p.x ==> r.velocity.x <= 0.0)
      && (r.position.y > p.y ==> r.velocity.y >= 0.0)
      && (r.position.y < p.y ==> r.velocity.y <= 0.0)
      && (0.0 <= p.x <= s.width ==> r.position.x == p.x && r.velocity.x == v.x)
      && (0.0 <= p.y <= s.height ==> r.position.y == p.y && r.velocity.y == v.y)
    ensures var r := Stepped(m, s, dt, noise, sqrt, atan2);
      var p := FlightPosition(m, s, dt, noise, sqrt);
      var v := FlightVelocity(m, s, dt, noise, sqrt);
      && (p.x < 0.0 ==> r.position.x == 0.0 && r.velocity.x == Abs(v.x) * Restitution)
      && (p.x > s.width ==> r.position.x == s.width && r.velocity.x == -Abs(v.x) * Restitution)
      && (p.y < 0.0 ==> r.position.y == 0.0 && r.velocity.y == Abs(v.y) * Restitution)
      && (p.y > s.height ==> r.position.y == s.height && r.velocity.y == -Abs(v.y) * Restitution)
  {
  }

  /** The heading is the direction of the new velocity, or the old heading when that is zero. */
  lemma SteppedHeading(m: Mosquito, s: Scene, dt: real, noise: Vector2D,
                       sqrt: real -> real, atan2: (real, real) -> real)
    requires s.speedMultiplier >= 0.0
    ensures var r := Stepped(m, s, dt, noise, sqrt, atan2);
      r.velocity == Zero ==> r.angle == m.angle
    ensures var r := Stepped(m, s, dt, noise, sqrt, atan2);
      r.velocity != Zero ==> r.angle == atan2(r.velocity.y, r.velocity.x)
  {
  }

  /**
   * A step of zero duration leaves a mosquito that is on the canvas, under
   * the speed cap and headed along its velocity unchanged, except for the
   * recomputed follow decision and acceleration.
   */
  lemma ZeroTick(m: Mosquito, s: Scene, noise: Vector2D,
                 sqrt: real -> real, atan2: (real, real) -> real)
    requires IsSqrt(sqrt) && s.speedMultiplier >= 0.0
    requires 0.0 <= m.position.x <= s.width && 0.0 <= m.position.y <= s.height
    requires Norm2(m.velocity) <= Sq(MaxSpeed * s.speedMultiplier)
    requires m.velocity != Zero ==> m.angle == atan2(m.velocity.y, m.velocity.x)
    ensures var r := Stepped(m, s, 0.0, noise, sqrt, atan2);
      r == m.(followCursor := r.followCursor, acceleration := r.acceleration)
  {
    CapSpeedKeep(m.velocity, MaxSpeed * s.speedMultiplier, sqrt);
    ZeroTickUncapped(m, s, noise, sqrt, atan2);
  }

  /** `ZeroTick` for any velocity the cap leaves as it is. */
  lemma ZeroTickUncapped(m: Mosquito, s: Scene, noise: Vector2D,
                         sqrt: real -> real, atan2: (real, real) -> real)
    requires s.speedMultiplier >= 0.0
    requires 0.0 <= m.position.x <= s.width && 0.0 <= m.position.y <= s.height
    requires CapSpeed(m.velocity, MaxSpeed * s.speedMultiplier, sqrt) == m.velocity
    requires m.velocity != Zero ==> m.angle == atan2(m.velocity.y, m.velocity.x)
    ensures var r := Stepped(m, s, 0.0, noise, sqrt, atan2);
      r == m.(followCursor := r.followCursor, acceleration := r.acceleration)
  {
    var st := Steered(Clocked(m, 0.0), s, noise, sqrt);
    assert st.velocity == m.velocity && st.position == m.position;
    var f := Flown(st, s, 0.0, sqrt);
    assert f.velocity == m.velocity && f.position == m.position;
    var b := Bounced(f, s.width, s.height);
    assert b.velocity == m.velocity && b.position == m.position;
  }

  /**
   * On a canvas of non-negative size the condition of `ZeroTick` is exact: a
   * step of zero duration changes nothing but the follow decision and the
   * acceleration if and only if the mosquito is on the canvas, under the
   * speed cap and headed along its velocity.
   */
  lemma ZeroTickExactly(m: Mosquito, s: Scene, noise: Vector2D,
                        sqrt: real -> real, atan2: (real, real) -> real)
    requires IsSqrt(sqrt) && s.speedMultiplier >= 0.0
    requires s.width >= 0.0 && s.height >= 0.0
    ensures var r := Stepped(m, s, 0.0, noise, sqrt, atan2);
      r == m.(followCursor := r.followCursor, acceleration := r.acceleration)
      <==>
      && 0.0 <= m.position.x <= s.width && 0.0 <= m.position.y <= s.height
      && Norm2(m.velocity) <= Sq(MaxSpeed * s.speedMultiplier)
      && (m.velocity != Zero ==> m.angle == atan2(m.velocity.y, m.velocity.x))
  {
    var r := Stepped(m, s, 0.0, noise, sqrt, atan2);
    if && 0.0 <= m.position.x <= s.width && 0.0 <= m.position.y <= s.height
       && Norm2(m.velocity) <= Sq(MaxSpeed * s.speedMultiplier)
       && (m.velocity != Zero ==> m.angle == atan2(m.velocity.y, m.velocity.x))
    {
      ZeroTick(m, s, noise, sqrt, atan2);
    }
    if r == m.(followCursor := r.followCursor, acceleration := r.acceleration) {
      assert r.position == m.position && r.velocity == m.velocity && r.angle == m.angle;
      SteppedInCanvas(m, s, 0.0, noise, sqrt, atan2);
      SteppedSpeed(m, s, 0.0, noise, sqrt, atan2);
      SteppedHeading(m, s, 0.0, noise, sqrt, atan2);
    }
  }

  /**
   * A step of zero duration is not a no-op for a mosquito off the canvas:
   * it is moved onto the edge.
   */
  lemma ZeroTickClamps(m: Mosquito, s: Scene, noise: Vector2D,
                       sqrt: real -> real, atan2: (real, real) -> real)
    requires s.speedMultiplier >= 0.0
    requires s.width >= 0.0 && m.position.x < 0.0
    ensures Stepped(m, s, 0.0, noise, sqrt, atan2).position.x == 0.0 != m.position.x
  {
  }

  /** Every stored mosquito after one step of `update`, with the noise drawn for its id. */
  function StepAll(store: map<Id, Mosquito>, s: Scene, dt: real, noise: Id -> Vector2D,
                   sqrt: real -> real, atan2: (real, real) -> real): map<Id, Mosquito>
    requires s.speedMultiplier >= 0.0
  {
    map k | k in store :: Stepped(store[k], s, dt, noise(k), sqrt, atan2)
  }

  /** A store whose every entry is the step of the old one is the stepped store. */
  lemma StepAllPointwise(store: map<Id, Mosquito>, next: map<Id, Mosquito>, s: Scene, dt: real,
                         noise: Id -> Vector2D, sqrt: real -> real, atan2: (real, real) -> real)
    requires s.speedMultiplier >= 0.0
    requires next.Keys == store.Keys
    requires forall k :: k in store ==> next[k] == Stepped(store[k], s, dt, noise(k), sqrt, atan2)
    ensures next == StepAll(store, s, dt, noise, sqrt, atan2)
  {
    var target := StepAll(store, s, dt, noise, sqrt, atan2);
    assert target.Keys == store.Keys;
    SamePointwise(next, target);
  }

  /** A step of the whole store keeps its ids and its well-formedness. */
  lemma StepAllKeepsStore(store: map<Id, Mosquito>, s: Scene, dt: real, noise: Id -> Vector2D,
                          sqrt: real -> real, atan2: (real, real) -> real)
    requires s.speedMultiplier >= 0.0
    requires WellFormed(store)
    ensures StepAll(store, s, dt, noise, sqrt, atan2).Keys == store.Keys
    ensures WellFormed(StepAll(store, s, dt, noise, sqrt, atan2))
  {
  }

  /** A step of the whole store leaves every mosquito under the speed cap, and on a canvas of non-negative size. */
  lemma StepAllBounds(store: map<Id, Mosquito>, s: Scene, dt: real, noise: Id -> Vector2D,
                      sqrt: real -> real, atan2: (real, real) -> real)
    requires IsSqrt(sqrt) && s.speedMultiplier >= 0.0
    ensures forall k :: k in store ==>
      Norm2(StepAll(store, s, dt, noise, sqrt, atan2)[k].velocity) <= Sq(MaxSpeed * s.speedMultiplier)
    ensures s.width >= 0.0 && s.height >= 0.0 ==> forall k :: k in store ==>
      var p := StepAll(store, s, dt, noise, sqrt, atan2)[k].position;
      0.0 <= p.x <= s.width && 0.0 <= p.y <= s.height
  {
    var next := StepAll(store, s, dt, noise, sqrt, atan2);
    forall k | k in store
      ensures Norm2(next[k].velocity) <= Sq(MaxSpeed * s.speedMultiplier)
      ensures s.width >= 0.0 && s.height >= 0.0 ==>
        0.0 <= next[k].position.x <= s.width && 0.0 <= next[k].position.y <= s.height
    {
      SteppedSpeed(store[k], s, dt, noise(k), sqrt, atan2);
      if s.width >= 0.0 && s.height >= 0.0 {
        SteppedInCanvas(store[k], s, dt, noise(k), sqrt, atan2);
      }
    }
  }
}
