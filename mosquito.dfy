/**
 * The engine's entity record and what creating one means: the `Mosquito`
 * record, the initial values `createMosquito` gives it, the inset clamp that
 * `multiplyMosquito` applies to children, the click reach used by
 * `checkClick`, and the effect of a run of `Map.set` calls on the store.
 */
module Mosquitoes {
  import opened Geometry

  /** The engine's opaque identifier (`mosquito_<time>_<random>` in the source). */
  type Id = string

  datatype Option<T> = None | Some(value: T)

  /**
   * One simulated mosquito. `targetPosition` is declared by the source but
   * never set by the engine, so every record here carries `None`.
   */
  datatype Mosquito = Mosquito(
    id: Id,
    position: Vector2D,
    velocity: Vector2D,
    acceleration: Vector2D,
    angle: real,
    size: real,
    wingBeat: real,
    followCursor: bool,
    targetPosition: Option<Vector2D>,
    timeAlive: real)

  /** The shortest decimal that rounds to the double `Math.PI`. */
  const Pi: real := 3.141592653589793
  /** Sizes are drawn from [MinSize, MinSize + SizeSpread). */
  const MinSize: real := 3.0
  const SizeSpread: real := 2.0
  /** A click hits a mosquito closer than `size + ClickMargin`. */
  const ClickMargin: real := 10.0
  /** Children of `multiplyMosquito` sit on a circle of this radius ... */
  const SpawnRadius: real := 20.0
  /** ... clamped this far inside the canvas edges. */
  const SpawnInset: real := 10.0

  /**
   * The `Math.random()` values one `createMosquito` call draws: a position
   * per axis (used only when that coordinate is not given), a velocity per
   * axis, the heading and the size.
   */
  datatype SpawnDraws = SpawnDraws(x: real, y: real, vx: real, vy: real, angle: real, size: real)
  {
    /** `Math.random()` returns values in [0, 1). */
    predicate Valid()
    {
      && 0.0 <= x < 1.0 && 0.0 <= y < 1.0
      && 0.0 <= vx < 1.0 && 0.0 <= vy < 1.0
      && 0.0 <= angle < 1.0 && 0.0 <= size < 1.0
    }
  }

  /**
   * A random coordinate `u * extent` lies on the canvas, and strictly before
   * its far edge when the canvas has positive extent.
   */
  lemma ScaledDrawInRange(u: real, extent: real)
    requires 0.0 <= u < 1.0
    ensures extent >= 0.0 ==> 0.0 <= u * extent <= extent
    ensures extent > 0.0 ==> u * extent < extent
  {
    if extent >= 0.0 {
      MulNonNeg(u, extent);
      MulNonNeg(1.0 - u, extent);
    }
    if extent > 0.0 {
      MulPos(1.0 - u, extent);
    }
  }

  /** The record `createMosquito(x, y)` builds on a `width` x `height` canvas. */
  function NewMosquito(id: Id, x: Option<real>, y: Option<real>, draws: SpawnDraws,
                       width: real, height: real): (m: Mosquito)
    requires draws.Valid()
    ensures m.id == id
    ensures x.Some? ==> m.position.x == x.value
    ensures y.Some? ==> m.position.y == y.value
    ensures x.None? && width >= 0.0 ==> 0.0 <= m.position.x <= width
    ensures x.None? && width > 0.0 ==> m.position.x < width
    ensures y.None? && height >= 0.0 ==> 0.0 <= m.position.y <= height
    ensures y.None? && height > 0.0 ==> m.position.y < height
    ensures -1.0 <= m.velocity.x < 1.0 && -1.0 <= m.velocity.y < 1.0
    ensures m.acceleration == Zero
    ensures 0.0 <= m.angle < 2.0 * Pi
    ensures MinSize <= m.size < MinSize + SizeSpread
    ensures m.wingBeat == 0.0 && m.timeAlive == 0.0
    ensures !m.followCursor && m.targetPosition == None
  {
    ScaledDrawInRange(draws.x, width);
    ScaledDrawInRange(draws.y, height);
    Mosquito(
      id,
      Vector2D(if x.Some? then x.value else draws.x * width,
               if y.Some? then y.value else draws.y * height),
      Vector2D((draws.vx - 0.5) * 2.0, (draws.vy - 0.5) * 2.0),
      Zero,
      draws.angle * Pi * 2.0,
      MinSize + draws.size * SizeSpread,
      0.0,
      false,
      None,
      0.0)
  }

  /**
   * `Math.max(10, Math.min(extent - 10, v))`: keeps a child at least
   * `SpawnInset` from the near edge, and from the far edge whenever the
   * canvas is wide enough for both.
   */
  function InsetClamp(extent: real, v: real): (r: real)
    ensures r >= SpawnInset
    ensures extent >= 2.0 * SpawnInset ==> r <= extent - SpawnInset
    ensures SpawnInset <= v <= extent - SpawnInset ==> r == v
    ensures r == SpawnInset || r == v || r == extent - SpawnInset
  {
    Max(SpawnInset, Min(extent - SpawnInset, v))
  }

  /** The angle of child `i` of `count`: `2 * PI * i / count`. */
  function SpawnAngle(i: nat, count: nat): real
    requires i < count
  {
    Pi * 2.0 * (i as real) / (count as real)
  }

  /**
   * Where `multiplyMosquito` places child `i` of `count` around `center`:
   * on the circle of radius `SpawnRadius`, then clamped into the inset
   * rectangle of the canvas.
   */
  function ChildPosition(center: Vector2D, i: nat, count: nat, width: real, height: real,
                         cos: real -> real, sin: real -> real): (p: Vector2D)
    requires i < count
    ensures p.x >= SpawnInset && p.y >= SpawnInset
    ensures width >= 2.0 * SpawnInset ==> p.x <= width - SpawnInset
    ensures height >= 2.0 * SpawnInset ==> p.y <= height - SpawnInset
  {
    var angle := SpawnAngle(i, count);
    Vector2D(InsetClamp(width, center.x + cos(angle) * SpawnRadius),
             InsetClamp(height, center.y + sin(angle) * SpawnRadius))
  }

  /**
   * The first `n` children `multiplyMosquito` creates around `center`:
   * child `i` at `ChildPosition(center, i, |ids|, ...)` with id `ids[i]` and
   * draws `draws[i]`.
   */
  function Offspring(center: Vector2D, ids: seq<Id>, draws: seq<SpawnDraws>, n: nat,
                     width: real, height: real, cos: real -> real, sin: real -> real): (cs: seq<Mosquito>)
    requires n <= |ids| == |draws| && forall i :: 0 <= i < |draws| ==> draws[i].Valid()
    ensures |cs| == n
  {
    if n == 0 then []
    else
      var p := ChildPosition(center, n - 1, |ids|, width, height, cos, sin);
      Offspring(center, ids, draws, n - 1, width, height, cos, sin)
        + [NewMosquito(ids[n - 1], Some(p.x), Some(p.y), draws[n - 1], width, height)]
  }

  /**
   * Child `i` of the offspring is the mosquito created with `ids[i]` and
   * `draws[i]` at the `i`-th spawn position, inside the inset rectangle.
   */
  lemma {:induction false} OffspringAt(center: Vector2D, ids: seq<Id>, draws: seq<SpawnDraws>, n: nat,
                                       width: real, height: real, cos: real -> real, sin: real -> real)
    requires n <= |ids| == |draws| && forall i :: 0 <= i < |draws| ==> draws[i].Valid()
    ensures forall i :: 0 <= i < n ==>
      var p := ChildPosition(center, i, |ids|, width, height, cos, sin);
      var c := Offspring(center, ids, draws, n, width, height, cos, sin)[i];
      c == NewMosquito(ids[i], Some(p.x), Some(p.y), draws[i], width, height)
      && c.position == p && c.id == ids[i]
  {
    if n > 0 {
      OffspringAt(center, ids, draws, n - 1, width, height, cos, sin);
    }
  }

  /** `checkClick`'s test `distance < size + 10`, in squared form. */
  predicate WithinReach(m: Mosquito, click: Vector2D)
  {
    Dist2(m.position, click) < Sq(m.size + ClickMargin)
  }

  /** Every entry is filed under its own id and has a size from the creation range. */
  ghost predicate WellFormed(store: map<Id, Mosquito>)
  {
    forall k :: k in store ==> store[k].id == k && MinSize <= store[k].size < MinSize + SizeSpread
  }

  function Ids(ms: seq<Mosquito>): set<Id>
  {
    set m | m in ms :: m.id
  }

  predicate DistinctIds(ms: seq<Mosquito>)
  {
    forall i, j :: 0 <= i < j < |ms| ==> ms[i].id != ms[j].id
  }

  /**
   * `out` lists, each exactly once, the entries of `store` filed under `seen`
   * that satisfy `WithinReach(_, click)` when `filter` is set, and all of
   * them otherwise.
   */
  ghost predicate Collected(store: map<Id, Mosquito>, seen: set<Id>, out: seq<Mosquito>,
                            filter: bool, click: Vector2D)
  {
    && (forall i :: 0 <= i < |out| ==>
          out[i].id in seen && out[i].id in store && store[out[i].id] == out[i]
          && (filter ==> WithinReach(out[i], click)))
    && (forall k :: k in seen && k in store && (filter ==> WithinReach(store[k], click)) ==> store[k] in out)
    && DistinctIds(out)
  }

  /** Visiting one more key `k` keeps `Collected`, appending its entry exactly when it passes the filter. */
  lemma CollectStep(store: map<Id, Mosquito>, seen: set<Id>, out: seq<Mosquito>,
                    filter: bool, click: Vector2D, k: Id)
    requires WellFormed(store) && Collected(store, seen, out, filter, click)
    requires k in store && k !in seen
    ensures !filter || WithinReach(store[k], click) ==> Collected(store, seen + {k}, out + [store[k]], filter, click)
    ensures filter && !WithinReach(store[k], click) ==> Collected(store, seen + {k}, out, filter, click)
  {
    var m := store[k];
    if !filter || WithinReach(m, click) {
      var next := out + [m];
      forall i | 0 <= i < |next|
        ensures next[i].id in seen + {k} && next[i].id in store && store[next[i].id] == next[i]
        ensures filter ==> WithinReach(next[i], click)
      {
        if i < |out| {
          assert next[i] == out[i];
        }
      }
      assert DistinctIds(next);
    }
  }

  /** Two stores with the same ids and the same entry under each id are equal. */
  lemma SamePointwise(a: map<Id, Mosquito>, b: map<Id, Mosquito>)
    requires a.Keys == b.Keys && forall k :: k in a ==> a[k] == b[k]
    ensures a == b
  {
  }

  /** The store after `Map.set(m.id, m)` for each `m` of `ms` in order. */
  function Inserted(store: map<Id, Mosquito>, ms: seq<Mosquito>): map<Id, Mosquito>
    decreases |ms|
  {
    if ms == [] then store
    else
      var last := ms[|ms| - 1];
      Inserted(store, ms[..|ms| - 1])[last.id := last]
  }

  /** Inserting `ms` adds exactly their ids and leaves every other entry alone. */
  lemma {:induction false} InsertedKeys(store: map<Id, Mosquito>, ms: seq<Mosquito>)
    ensures Inserted(store, ms).Keys == store.Keys + Ids(ms)
    ensures forall k :: k in store && k !in Ids(ms) ==> Inserted(store, ms)[k] == store[k]
    decreases |ms|
  {
    if ms != [] {
      var init, last := ms[..|ms| - 1], ms[|ms| - 1];
      InsertedKeys(store, init);
      assert ms == init + [last];
      assert Ids(ms) == Ids(init) + {last.id};
    }
  }

  /** Each record of `ms` is filed under its id unless a later record reuses that id. */
  lemma {:induction false} InsertedLastWins(store: map<Id, Mosquito>, ms: seq<Mosquito>)
    ensures forall i :: 0 <= i < |ms| && (forall j :: i < j < |ms| ==> ms[j].id != ms[i].id) ==>
      ms[i].id in Inserted(store, ms) && Inserted(store, ms)[ms[i].id] == ms[i]
    decreases |ms|
  {
    if ms != [] {
      var init, last := ms[..|ms| - 1], ms[|ms| - 1];
      InsertedLastWins(store, init);
      forall i | 0 <= i < |ms| && (forall j :: i < j < |ms| ==> ms[j].id != ms[i].id)
        ensures ms[i].id in Inserted(store, ms) && Inserted(store, ms)[ms[i].id] == ms[i]
      {
        if i < |ms| - 1 {
          assert ms[i] == init[i];
          assert forall j :: i < j < |init| ==> init[j].id != init[i].id by {
            forall j | i < j < |init| ensures init[j].id != init[i].id {
              assert init[j] == ms[j];
            }
          }
        }
      }
    }
  }

  /** With distinct ids none of which is already stored, the store grows by exactly `|ms|`. */
  lemma {:induction false} InsertedFresh(store: map<Id, Mosquito>, ms: seq<Mosquito>)
    requires DistinctIds(ms) && forall i :: 0 <= i < |ms| ==> ms[i].id !in store
    ensures |Inserted(store, ms)| == |store| + |ms|
    ensures forall i :: 0 <= i < |ms| ==>
      ms[i].id in Inserted(store, ms) && Inserted(store, ms)[ms[i].id] == ms[i]
    decreases |ms|
  {
    InsertedLastWins(store, ms);
    forall i | 0 <= i < |ms|
      ensures ms[i].id in Inserted(store, ms) && Inserted(store, ms)[ms[i].id] == ms[i]
    {
      assert ms[i] in ms;
      assert forall j :: i < j < |ms| ==> ms[j].id != ms[i].id;
    }
    if ms != [] {
      var init, last := ms[..|ms| - 1], ms[|ms| - 1];
      assert forall i :: 0 <= i < |init| ==> init[i] == ms[i];
      InsertedFresh(store, init);
      InsertedKeys(store, init);
      assert last.id !in Ids(init) by {
        forall m | m in init ensures m.id != last.id {
          var i :| 0 <= i < |init| && init[i] == m;
          assert ms[i] == m;
        }
      }
      assert last.id !in Inserted(store, init);
    }
  }

  /**
   * Filing records that carry the ids `ids` adds exactly those ids, leaves
   * every other entry as it was, and grows the store by `|ids|` when the ids
   * are distinct and new.
   */
  lemma InsertedIds(store: map<Id, Mosquito>, ms: seq<Mosquito>, ids: seq<Id>)
    requires |ms| == |ids| && forall i :: 0 <= i < |ms| ==> ms[i].id == ids[i]
    ensures Inserted(store, ms).Keys == store.Keys + (set i | 0 <= i < |ids| :: ids[i])
    ensures forall k :: k in store && k !in ids ==> Inserted(store, ms)[k] == store[k]
    ensures (forall i, j :: 0 <= i < j < |ids| ==> ids[i] != ids[j]) && (forall i :: 0 <= i < |ids| ==> ids[i] !in store)
      ==> |Inserted(store, ms)| == |store| + |ids|
  {
    assert Ids(ms) == set i | 0 <= i < |ids| :: ids[i] by {
      forall k | k in Ids(ms) ensures exists i :: 0 <= i < |ids| && ids[i] == k {
        var m :| m in ms && m.id == k;
        var i :| 0 <= i < |ms| && ms[i] == m;
        assert ids[i] == k;
      }
      forall i | 0 <= i < |ids| ensures ids[i] in Ids(ms) {
        assert ms[i] in ms;
      }
    }
    assert forall k :: k in ids ==> k in Ids(ms) by {
      forall k | k in ids ensures k in Ids(ms) {
        var i :| 0 <= i < |ids| && ids[i] == k;
        assert ms[i] in ms;
      }
    }
    InsertedKeys(store, ms);
    if (forall i, j :: 0 <= i < j < |ids| ==> ids[i] != ids[j]) && (forall i :: 0 <= i < |ids| ==> ids[i] !in store) {
      forall i, j | 0 <= i < j < |ms| ensures ms[i].id != ms[j].id {
        assert ids[i] != ids[j];
      }
      InsertedFresh(store, ms);
    }
  }

  /**
   * Filing the offspring spawned for `ids` adds exactly the ids of `ids`,
   * leaves every other entry (the parent's among them) as it was, and grows
   * the store by `|ids|` when the ids are distinct and new.
   */
  lemma SpawnedStore(store: map<Id, Mosquito>, center: Vector2D, ids: seq<Id>, draws: seq<SpawnDraws>,
                     width: real, height: real, cos: real -> real, sin: real -> real)
    requires |ids| == |draws| && forall i :: 0 <= i < |draws| ==> draws[i].Valid()
    ensures var after := Inserted(store, Offspring(center, ids, draws, |ids|, width, height, cos, sin));
      after.Keys == store.Keys + (set i | 0 <= i < |ids| :: ids[i])
    ensures var after := Inserted(store, Offspring(center, ids, draws, |ids|, width, height, cos, sin));
      forall k :: k in store && k !in ids ==> after[k] == store[k]
    ensures var after := Inserted(store, Offspring(center, ids, draws, |ids|, width, height, cos, sin));
      (forall i, j :: 0 <= i < j < |ids| ==> ids[i] != ids[j]) && (forall i :: 0 <= i < |ids| ==> ids[i] !in store) ==>
        |after| == |store| + |ids|
  {
    OffspringAt(center, ids, draws, |ids|, width, height, cos, sin);
    InsertedIds(store, Offspring(center, ids, draws, |ids|, width, height, cos, sin), ids);
  }
}
