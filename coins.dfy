/**
  The coin entity of the collect-the-coins demo and the rules that act on one
  coin per frame: how a coin is spawned from three random draws, how it falls,
  when it is despawned below the floor and when the player captures it.
  Single-precision floats are modelled by `real`.
 */
module Coins {

  /** A point of the scene (glm::vec3). */
  datatype Vec3 = Vec3(x: real, y: real, z: real)

  /** One falling coin: where it is, how fast it falls, and whether it is gone. */
  datatype Coin = Coin(position: Vec3, speed: real, collected: bool)

  const SPAWN_HEIGHT: real := 10.0
  const GROUND_CENTER_X: real := 10.0
  const GROUND_CENTER_Z: real := 10.0
  const GROUND_SIZE_X: real := 18.0
  const GROUND_SIZE_Z: real := 18.0
  const BASE_SPEED: real := 2.0
  /** A coin strictly below this height has missed the player. */
  const FLOOR_Y: real := -1.0
  /** A coin strictly closer than this to the player is captured. */
  const CAPTURE_RADIUS: real := 0.8

  function DistanceSquared(a: Vec3, b: Vec3): (d: real)
    ensures d >= 0.0
  {
    (a.x - b.x) * (a.x - b.x) + (a.y - b.y) * (a.y - b.y) + (a.z - b.z) * (a.z - b.z)
  }

  /** `length(player - p) < 0.8`, compared on squares so that no root is needed. */
  predicate InCaptureRange(player: Vec3, p: Vec3)
  {
    DistanceSquared(player, p) < CAPTURE_RADIUS * CAPTURE_RADIUS
  }

  /** For any non-negative length whose square is the squared distance, the two capture tests agree. */
  lemma CaptureMatchesLength(a: Vec3, b: Vec3, length: real)
    requires length >= 0.0 && length * length == DistanceSquared(a, b)
    ensures length < CAPTURE_RADIUS <==> InCaptureRange(a, b)
  {
    if length < CAPTURE_RADIUS {
      assert length * length <= CAPTURE_RADIUS * length;
    } else {
      assert length * length >= CAPTURE_RADIUS * length;
    }
  }

  /** A captured point lies strictly within `CAPTURE_RADIUS` of the player along each axis. */
  lemma CaptureWithinBox(player: Vec3, p: Vec3)
    ensures InCaptureRange(player, p) ==>
      -CAPTURE_RADIUS < p.x - player.x < CAPTURE_RADIUS &&
      -CAPTURE_RADIUS < p.y - player.y < CAPTURE_RADIUS &&
      -CAPTURE_RADIUS < p.z - player.z < CAPTURE_RADIUS
  {
    if InCaptureRange(player, p) {
      var dx, dy, dz := p.x - player.x, p.y - player.y, p.z - player.z;
      assert dx * dx >= 0.0 && dy * dy >= 0.0 && dz * dz >= 0.0;
      assert DistanceSquared(player, p) == dx * dx + dy * dy + dz * dz;
      SquareBelowCapture(dx);
      SquareBelowCapture(dy);
      SquareBelowCapture(dz);
    }
  }

  /** A squared difference below `CAPTURE_RADIUS` squared means a difference below `CAPTURE_RADIUS`. */
  lemma SquareBelowCapture(d: real)
    requires d * d < CAPTURE_RADIUS * CAPTURE_RADIUS
    ensures -CAPTURE_RADIUS < d < CAPTURE_RADIUS
  {
  }

  /** The grid offset `((draw % 1000) / 1000) * size - size / 2` around a ground centre. */
  function SpawnOffset(draw: nat, size: real): (r: real)
    ensures size >= 0.0 ==> -size / 2.0 <= r <= size * 0.999 - size / 2.0
  {
    var fraction := (draw % 1000) as real / 1000.0;
    assert size >= 0.0 ==> 0.0 <= fraction * size <= 0.999 * size by {
      if size >= 0.0 {
        assert fraction * size <= 0.999 * size;
      }
    }
    fraction * size - size / 2.0
  }

  /**
    The coin pushed by the spawner: `drawX`, `drawZ` and `drawSpeed` are the
    three `rand()` results, taken in that order.
   */
  function NewCoin(drawX: nat, drawZ: nat, drawSpeed: nat): (c: Coin)
    ensures !c.collected
    ensures c.position.y == SPAWN_HEIGHT
    ensures 2.0 <= c.speed <= 2.99
    ensures 1.0 <= c.position.x <= 1.0 + 18.0 * 0.999
    ensures 1.0 <= c.position.z <= 1.0 + 18.0 * 0.999
  {
    Coin(Vec3(GROUND_CENTER_X + SpawnOffset(drawX, GROUND_SIZE_X),
              SPAWN_HEIGHT,
              GROUND_CENTER_Z + SpawnOffset(drawZ, GROUND_SIZE_Z)),
         BASE_SPEED + (drawSpeed % 100) as real / 100.0,
         false)
  }

  /** Where an uncollected coin is after falling for `dt` seconds. */
  function Fallen(c: Coin, dt: real): (p: Vec3)
    ensures p.x == c.position.x && p.z == c.position.z
    ensures c.speed >= 0.0 && dt >= 0.0 ==> p.y <= c.position.y
  {
    c.position.(y := c.position.y - c.speed * dt)
  }

  /** The coin scores this frame: it was still live and lands within capture range. */
  predicate IsHit(c: Coin, dt: real, player: Vec3): (hit: bool)
    ensures hit ==> !c.collected
    ensures hit ==> var p := Fallen(c, dt);
      -CAPTURE_RADIUS < p.x - player.x < CAPTURE_RADIUS &&
      -CAPTURE_RADIUS < p.y - player.y < CAPTURE_RADIUS &&
      -CAPTURE_RADIUS < p.z - player.z < CAPTURE_RADIUS
  {
    var p := Fallen(c, dt);
    CaptureWithinBox(player, p);
    !c.collected && InCaptureRange(player, p)
  }

  /**
    One iteration of the per-coin loop. The floor test and the capture test
    are two independent `if`s: a coin can be both below the floor and captured.
   */
  function UpdateCoin(c: Coin, dt: real, player: Vec3): (r: Coin)
    ensures c.collected ==> r == c
    ensures r.position.x == c.position.x && r.position.z == c.position.z && r.speed == c.speed
    ensures !c.collected ==> r.position.y == c.position.y - c.speed * dt
    ensures r.collected <==> c.collected || r.position.y < FLOOR_Y || InCaptureRange(player, r.position)
    ensures IsHit(c, dt, player) ==> r.collected
  {
    if c.collected then c
    else
      var p := Fallen(c, dt);
      Coin(p, c.speed, p.y < FLOOR_Y || InCaptureRange(player, p))
  }

  /** The whole vector after the loop, coin by coin. */
  function UpdateAll(cs: seq<Coin>, dt: real, player: Vec3): (r: seq<Coin>)
    ensures |r| == |cs|
    ensures forall i :: 0 <= i < |cs| && cs[i].collected ==> r[i] == cs[i]
    ensures forall i :: 0 <= i < |cs| && IsHit(cs[i], dt, player) ==> r[i].collected
  {
    seq(|cs|, i requires 0 <= i < |cs| => UpdateCoin(cs[i], dt, player))
  }

  /** How many `score++` the loop performs over `cs`, counted from the back. */
  function Hits(cs: seq<Coin>, dt: real, player: Vec3): (n: nat)
    ensures n <= |cs|
  {
    if cs == [] then 0
    else Hits(cs[..|cs| - 1], dt, player) + (if IsHit(cs[|cs| - 1], dt, player) then 1 else 0)
  }

  /** The indices of the coins scored this frame. */
  function HitIndices(cs: seq<Coin>, dt: real, player: Vec3): set<nat>
  {
    set i: nat | i < |cs| && IsHit(cs[i], dt, player)
  }

  /** The number of coins whose flag is set. */
  function CountCollected(cs: seq<Coin>): (n: nat)
    ensures n <= |cs|
  {
    if cs == [] then 0
    else CountCollected(cs[..|cs| - 1]) + (if cs[|cs| - 1].collected then 1 else 0)
  }

  /** The running count of `score++` equals the number of distinct coins scored. */
  lemma {:induction false} HitsCountsHitIndices(cs: seq<Coin>, dt: real, player: Vec3)
    ensures Hits(cs, dt, player) == |HitIndices(cs, dt, player)|
  {
    if cs == [] {
      assert HitIndices(cs, dt, player) == {};
    } else {
      var n := |cs| - 1;
      var init := cs[..n];
      HitsCountsHitIndices(init, dt, player);
      assert n !in HitIndices(init, dt, player);
      if IsHit(cs[n], dt, player) {
        assert HitIndices(cs, dt, player) == HitIndices(init, dt, player) + {n};
      } else {
        assert HitIndices(cs, dt, player) == HitIndices(init, dt, player);
      }
    }
  }

  /** Every hit turns a live coin into a collected one, so the loop collects at least as many coins as it scores. */
  lemma {:induction false} UpdateAllCollectsHits(cs: seq<Coin>, dt: real, player: Vec3)
    ensures CountCollected(UpdateAll(cs, dt, player)) >= CountCollected(cs) + Hits(cs, dt, player)
  {
    if cs != [] {
      var n := |cs| - 1;
      var init := cs[..n];
      UpdateAllCollectsHits(init, dt, player);
      var after := UpdateAll(cs, dt, player);
      assert after[..n] == UpdateAll(init, dt, player);
      assert after[n] == UpdateCoin(cs[n], dt, player);
    }
  }

  /** Appending a fresh, uncollected coin leaves the collected count unchanged. */
  lemma AppendLiveCoin(cs: seq<Coin>, c: Coin)
    requires !c.collected
    ensures CountCollected(cs + [c]) == CountCollected(cs)
  {
    assert (cs + [c])[..|cs|] == cs;
  }

  /**
    Floor test and capture test can both fire in one frame, and the coin is
    then scored (there is no `else` between them).
   */
  lemma FloorMissCanStillScore()
    ensures var c := Coin(Vec3(0.0, -0.9, 0.0), 1.0, false);
            var player := Vec3(0.0, -1.0, 0.0);
            UpdateCoin(c, 0.2, player).position.y < FLOOR_Y && IsHit(c, 0.2, player)
  {
  }

  /**
    While the player stands no lower than 0.8 above the floor (the demo keeps
    it at height 0), a coin that falls below the floor is out of capture
    range, so it is never both despawned and scored in the same frame.
   */
  lemma GroundedPlayerMissesFallenCoin(c: Coin, dt: real, player: Vec3)
    requires player.y >= FLOOR_Y + CAPTURE_RADIUS
    requires !c.collected && Fallen(c, dt).y < FLOOR_Y
    ensures !IsHit(c, dt, player)
  {
    // IsHit's per-axis bound puts a hit within CAPTURE_RADIUS of player.y, hence above FLOOR_Y.
  }
}
