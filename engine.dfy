/**
 * The `MosquitoEngine` object: the store of mosquitoes keyed by id, the
 * cursor position, the canvas size and the speed multiplier, with the
 * operations the game calls on it.
 *
 * The host's sources of values the engine does not compute are parameters:
 * ids and `Math.random()` draws for new mosquitoes, the wander noise of each
 * step, and `Math.sqrt`, `Math.cos`, `Math.sin` and `Math.atan2`.
 */
module Engine {
  import opened Geometry
  import opened Mosquitoes
  import opened Physics

  class MosquitoEngine {
    var mosquitoes: map<Id, Mosquito>
    var mousePosition: Vector2D
    var canvasWidth: real
    var canvasHeight: real
    var speedMultiplier: real

    /** Every mosquito is filed under its own id, with a size from the creation range. */
    ghost predicate Valid()
      reads this
    {
      WellFormed(mosquitoes)
    }

    /** The part of the engine state a step of `update` reads. */
    function CurrentScene(): Scene
      reads this
    {
      Scene(mousePosition, canvasWidth, canvasHeight, speedMultiplier)
    }

    constructor(width: real, height: real)
      ensures Valid() && mosquitoes == map[]
      ensures mousePosition == Zero && canvasWidth == width && canvasHeight == height
      ensures speedMultiplier == 1.0
    {
      mosquitoes := map[];
      mousePosition := Zero;
      canvasWidth, canvasHeight := width, height;
      speedMultiplier := 1.0;
    }

    method SetCanvasSize(width: real, height: real)
      modifies this
      ensures canvasWidth == width && canvasHeight == height
      ensures mosquitoes == old(mosquitoes) && mousePosition == old(mousePosition)
      ensures speedMultiplier == old(speedMultiplier)
    {
      canvasWidth, canvasHeight := width, height;
    }

    method SetMousePosition(x: real, y: real)
      modifies this
      ensures mousePosition == Vector2D(x, y)
      ensures mosquitoes == old(mosquitoes) && canvasWidth == old(canvasWidth)
      ensures canvasHeight == old(canvasHeight) && speedMultiplier == old(speedMultiplier)
    {
      mousePosition := Vector2D(x, y);
    }

    method SetSpeedMultiplier(speed: real)
      modifies this
      ensures speedMultiplier == speed
      ensures mosquitoes == old(mosquitoes) && mousePosition == old(mousePosition)
      ensures canvasWidth == old(canvasWidth) && canvasHeight == old(canvasHeight)
    {
      speedMultiplier := speed;
    }

    /**
     * Builds a mosquito at `(x, y)`, or at a random point of the canvas for a
     * missing coordinate, and files it under `id`, replacing any mosquito
     * already filed there.
     */
    method CreateMosquito(x: Option<real>, y: Option<real>, id: Id, draws: SpawnDraws) returns (m: Mosquito)
      requires Valid() && draws.Valid()
      modifies this
      ensures Valid()
      ensures m == NewMosquito(id, x, y, draws, canvasWidth, canvasHeight)
      ensures mosquitoes == old(mosquitoes)[id := m]
      ensures |mosquitoes| == |old(mosquitoes)| + (if id in old(mosquitoes) then 0 else 1)
      ensures CurrentScene() == old(CurrentScene())
    {
      m := NewMosquito(id, x, y, draws, canvasWidth, canvasHeight);
      mosquitoes := mosquitoes[m.id := m];
    }

    method RemoveMosquito(id: Id)
      requires Valid()
      modifies this
      ensures Valid()
      ensures mosquitoes == old(mosquitoes) - {id}
      ensures CurrentScene() == old(CurrentScene())
    {
      mosquitoes := mosquitoes - {id};
    }

    method ClearAll()
      modifies this
      ensures Valid() && mosquitoes == map[]
      ensures CurrentScene() == old(CurrentScene())
    {
      mosquitoes := map[];
    }

    /** Every stored mosquito exactly once. */
    method GetMosquitoes() returns (all: seq<Mosquito>)
      requires Valid()
      ensures |all| == |mosquitoes|
      ensures forall i :: 0 <= i < |all| ==> all[i].id in mosquitoes && mosquitoes[all[i].id] == all[i]
      ensures forall k :: k in mosquitoes ==> mosquitoes[k] in all
      ensures DistinctIds(all)
    {
      all := [];
      var pending := mosquitoes.Keys;
      while pending != {}
        invariant pending <= mosquitoes.Keys
        invariant |all| + |pending| == |mosquitoes|
        invariant Collected(mosquitoes, mosquitoes.Keys - pending, all, false, Zero)
        decreases pending
      {
        var k :| k in pending;
        CollectStep(mosquitoes, mosquitoes.Keys - pending, all, false, Zero, k);
        all := all + [mosquitoes[k]];
        assert mosquitoes.Keys - (pending - {k}) == (mosquitoes.Keys - pending) + {k};
        pending := pending - {k};
      }
    }

    method GetCount() returns (n: nat)
      ensures n == |mosquitoes.Keys|
    {
      n := |mosquitoes|;
    }

    /**
     * The mosquitoes a click at `(clickX, clickY)` hits: each one whose
     * distance from the click is less than its size plus `ClickMargin`,
     * each once. The store is left as it is.
     */
    method CheckClick(clickX: real, clickY: real, sqrt: real -> real) returns (hits: seq<Mosquito>)
      requires Valid() && IsSqrt(sqrt)
      ensures forall i :: 0 <= i < |hits| ==>
        hits[i].id in mosquitoes && mosquitoes[hits[i].id] == hits[i]
        && WithinReach(hits[i], Vector2D(clickX, clickY))
      ensures forall k :: k in mosquitoes && WithinReach(mosquitoes[k], Vector2D(clickX, clickY)) ==>
        mosquitoes[k] in hits
      ensures DistinctIds(hits)
    {
      hits := [];
      var pending := mosquitoes.Keys;
      while pending != {}
        invariant pending <= mosquitoes.Keys
        invariant Collected(mosquitoes, mosquitoes.Keys - pending, hits, true, Vector2D(clickX, clickY))
        decreases pending
      {
        var k :| k in pending;
        var mosquito := mosquitoes[k];
        var d2 := Sq(clickX - mosquito.position.x) + Sq(clickY - mosquito.position.y);
        var distance := sqrt(d2);
        SqrtCompare(sqrt, d2, mosquito.size + ClickMargin);
        assert distance < mosquito.size + ClickMargin <==> WithinReach(mosquito, Vector2D(clickX, clickY));
        CollectStep(mosquitoes, mosquitoes.Keys - pending, hits, true, Vector2D(clickX, clickY), k);
        if distance < mosquito.size + ClickMargin {
          hits := hits + [mosquito];
        }
        assert mosquitoes.Keys - (pending - {k}) == (mosquitoes.Keys - pending) + {k};
        pending := pending - {k};
      }
    }

    /**
     * Spawns `count` children around `parent`: child `i` is placed on the
     * circle of radius `SpawnRadius` at angle `2 * PI * i / count`, clamped
     * into the inset rectangle of the canvas, and created with id `ids[i]`
     * and draws `draws[i]`.
     */
    method MultiplyMosquito(parent: Mosquito, count: int, ids: seq<Id>, draws: seq<SpawnDraws>,
                            cos: real -> real, sin: real -> real) returns (children: seq<Mosquito>)
      requires Valid()
      requires |ids| == |draws| == (if count > 0 then count else 0)
      requires forall i :: 0 <= i < |draws| ==> draws[i].Valid()
      modifies this
      ensures Valid()
      ensures children == Offspring(parent.position, ids, draws, |ids|, canvasWidth, canvasHeight, cos, sin)
      ensures mosquitoes == Inserted(old(mosquitoes), children)
      ensures CurrentScene() == old(CurrentScene())
    {
      var width, height := canvasWidth, canvasHeight;
      children := [];
      var i := 0;
      while i < count
        invariant 0 <= i <= |ids|
        invariant children == Offspring(parent.position, ids, draws, i, width, height, cos, sin)
        invariant mosquitoes == Inserted(old(mosquitoes), children)
        invariant CurrentScene() == old(CurrentScene())
        invariant Valid()
      {
        var angle := SpawnAngle(i, |ids|);
        var newX := parent.position.x + cos(angle) * SpawnRadius;
        var newY := parent.position.y + sin(angle) * SpawnRadius;
        ghost var p := ChildPosition(parent.position, i, |ids|, width, height, cos, sin);
        assert p == Vector2D(InsetClamp(width, newX), InsetClamp(height, newY));
        var child := CreateMosquito(Some(InsetClamp(canvasWidth, newX)), Some(InsetClamp(canvasHeight, newY)),
                                    ids[i], draws[i]);
        assert child == NewMosquito(ids[i], Some(p.x), Some(p.y), draws[i], width, height);
        assert (children + [child])[..|children|] == children;
        children := children + [child];
        i := i + 1;
      }
      assert i == |ids|;
    }

    /**
     * The steering part of a step: the follow decision and the acceleration,
     * rebuilt from zero.
     */
    method Steer(mosquito: Mosquito, noise: Vector2D, sqrt: real -> real) returns (m: Mosquito)
      ensures m == Steered(mosquito, CurrentScene(), noise, sqrt)
    {
      m := mosquito;
      var distanceToMouse := sqrt(Sq(mousePosition.x - m.position.x) + Sq(mousePosition.y - m.position.y));
      m := m.(followCursor := distanceToMouse < FollowRadius);
      assert Sq(mousePosition.x - m.position.x) + Sq(mousePosition.y - m.position.y)
          == Dist2(mosquito.position, mousePosition);

      m := m.(acceleration := Zero);
      if m.followCursor {
        var directionX := mousePosition.x - m.position.x;
        var directionY := mousePosition.y - m.position.y;
        var distance := sqrt(Sq(directionX) + Sq(directionY));
        if distance > 0.0 {
          m := m.(acceleration := Vector2D(m.acceleration.x + directionX / distance * FollowForce,
                                           m.acceleration.y + directionY / distance * FollowForce));
        }
      } else {
        m := m.(acceleration := Vector2D(m.acceleration.x + (noise.x - 0.5) * NoiseStrength,
                                         m.acceleration.y + (noise.y - 0.5) * NoiseStrength));
        var centerX := canvasWidth / 2.0;
        var centerY := canvasHeight / 2.0;
        var toCenterX := centerX - m.position.x;
        var toCenterY := centerY - m.position.y;
        var centerDistance := sqrt(Sq(toCenterX) + Sq(toCenterY));
        if centerDistance > 0.0 {
          m := m.(acceleration := Vector2D(m.acceleration.x + toCenterX / centerDistance * CenterForce,
                                           m.acceleration.y + toCenterY / centerDistance * CenterForce));
        }
      }
    }

    /**
     * The boundary part of a step: each coordinate off the canvas is put on
     * its edge and the speed along that axis turned inward and damped.
     */
    method BounceOffEdges(mosquito: Mosquito) returns (m: Mosquito)
      ensures m == Bounced(mosquito, canvasWidth, canvasHeight)
    {
      m := mosquito;
      if m.position.x < 0.0 {
        m := m.(position := m.position.(x := 0.0), velocity := m.velocity.(x := Abs(m.velocity.x) * Restitution));
      }
      if m.position.x > canvasWidth {
        m := m.(position := m.position.(x := canvasWidth),
                velocity := m.velocity.(x := -Abs(m.velocity.x) * Restitution));
      }
      assert (m.position.x, m.velocity.x) == BounceAxis(mosquito.position.x, mosquito.velocity.x, canvasWidth);
      if m.position.y < 0.0 {
        m := m.(position := m.position.(y := 0.0), velocity := m.velocity.(y := Abs(m.velocity.y) * Restitution));
      }
      if m.position.y > canvasHeight {
        m := m.(position := m.position.(y := canvasHeight),
                velocity := m.velocity.(y := -Abs(m.velocity.y) * Restitution));
      }
      assert (m.position.y, m.velocity.y) == BounceAxis(mosquito.position.y, mosquito.velocity.y, canvasHeight);
    }

    /**
     * One step of one mosquito, in the engine's order, on a copy of the
     * record: clocks, steering, velocity and speed cap, position, bounces,
     * heading.
     */
    method UpdateMosquito(mosquito: Mosquito, dt: real, noise: Vector2D,
                          sqrt: real -> real, atan2: (real, real) -> real) returns (m: Mosquito)
      requires speedMultiplier >= 0.0
      ensures m == Stepped(mosquito, CurrentScene(), dt, noise, sqrt, atan2)
    {
      m := mosquito;
      m := m.(timeAlive := m.timeAlive + dt);
      m := m.(wingBeat := m.wingBeat + dt * WingBeatRate);
      ghost var clocked := m;
      assert clocked == Clocked(mosquito, dt);
      m := Steer(m, noise, sqrt);
      ghost var steered := m;
      m := m.(velocity := Integrate(m.velocity, m.acceleration, dt, speedMultiplier));
      m := m.(velocity := CapSpeed(m.velocity, MaxSpeed * speedMultiplier, sqrt));
      m := m.(position := Integrate(m.position, m.velocity, dt, ReferenceFps));
      assert m == Flown(steered, CurrentScene(), dt, sqrt);
      m := BounceOffEdges(m);
      ghost var bounced := m;
      if m.velocity.x != 0.0 || m.velocity.y != 0.0 {
        m := m.(angle := atan2(m.velocity.y, m.velocity.x));
      }
      assert m == Headed(bounced, atan2);
    }

    /**
     * Steps every stored mosquito by `dt`, each with the noise drawn for
     * its id. Ids, the scene and well-formedness are kept.
     */
    method Update(dt: real, noise: Id -> Vector2D, sqrt: real -> real, atan2: (real, real) -> real)
      requires Valid() && speedMultiplier >= 0.0
      modifies this
      ensures CurrentScene() == old(CurrentScene())
      ensures Valid()
      ensures mosquitoes == StepAll(old(mosquitoes), old(CurrentScene()), dt, noise, sqrt, atan2)
    {
      var next := mosquitoes;
      var pending := mosquitoes.Keys;
      ghost var visited: set<Id> := {};
      while pending != {}
        invariant pending !! visited && pending + visited == mosquitoes.Keys
        invariant next.Keys == mosquitoes.Keys
        invariant forall k :: k in visited ==> next[k] == Stepped(mosquitoes[k], CurrentScene(), dt, noise(k), sqrt, atan2)
        invariant forall k :: k in pending ==> next[k] == mosquitoes[k]
        modifies {}
        decreases pending
      {
        var k :| k in pending;
        var stepped := UpdateMosquito(next[k], dt, noise(k), sqrt, atan2);
        next := next[k := stepped];
        pending, visited := pending - {k}, visited + {k};
      }
      ghost var before, scene := mosquitoes, CurrentScene();
      StepAllPointwise(before, next, scene, dt, noise, sqrt, atan2);
      mosquitoes := next;
      StepAllKeepsStore(before, scene, dt, noise, sqrt, atan2);
    }
  }
}
