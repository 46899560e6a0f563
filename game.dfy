/**
  The per-frame gameplay update of the collect-the-coins demo: the spawn
  timer, the coin vector and the score, advanced once per rendered frame, and
  the score-bar fraction drawn from the score.

  `World` is the value of the three globals and `Frame` the specification of
  one update; `GameState` holds the same three globals as mutable fields and
  its `Step` method performs the update in place, proved equal to `Frame`.
 */
module Game {
  import opened Coins

  /** Seconds that must accumulate before the next coin is spawned. */
  const SPAWN_INTERVAL: real := 0.3
  /** The score at which the bar is full. */
  const MAX_SCORE: real := 100.0

  /** Everything one frame reads from outside: the clock, the player and three `rand()` results. */
  datatype FrameInput = FrameInput(dt: real, player: Vec3, drawX: nat, drawZ: nat, drawSpeed: nat)

  /** The gameplay globals `coins`, `spawnTimer` and `score`. */
  datatype World = World(coins: seq<Coin>, spawnTimer: real, score: int)

  /** The globals at program start. */
  const INITIAL: World := World([], 0.0, 0)

  predicate SpawnDue(w: World, dt: real)
  {
    w.spawnTimer + dt >= SPAWN_INTERVAL
  }

  /** The world after the spawner ran and before the per-coin loop. */
  function AfterSpawn(w: World, input: FrameInput): (r: World)
    ensures r.score == w.score
    ensures SpawnDue(w, input.dt) ==>
      r.spawnTimer == 0.0 && r.coins == w.coins + [NewCoin(input.drawX, input.drawZ, input.drawSpeed)]
    ensures !SpawnDue(w, input.dt) ==> r.spawnTimer == w.spawnTimer + input.dt && r.coins == w.coins
  {
    var t := w.spawnTimer + input.dt;
    if t >= SPAWN_INTERVAL then
      World(w.coins + [NewCoin(input.drawX, input.drawZ, input.drawSpeed)], 0.0, w.score)
    else
      w.(spawnTimer := t)
  }

  /** One frame of the gameplay update. */
  function Frame(w: World, input: FrameInput): (r: World)
    ensures |r.coins| == |w.coins| + (if SpawnDue(w, input.dt) then 1 else 0)
    ensures r.spawnTimer == if SpawnDue(w, input.dt) then 0.0 else w.spawnTimer + input.dt
    ensures forall i :: 0 <= i < |w.coins| ==> r.coins[i] == UpdateCoin(w.coins[i], input.dt, input.player)
    ensures SpawnDue(w, input.dt) ==>
      r.coins[|w.coins|] == UpdateCoin(NewCoin(input.drawX, input.drawZ, input.drawSpeed), input.dt, input.player)
    ensures forall i :: 0 <= i < |r.coins| ==>
      r.coins[i] == UpdateCoin(AfterSpawn(w, input).coins[i], input.dt, input.player)
    ensures r.score == w.score + |HitIndices(AfterSpawn(w, input).coins, input.dt, input.player)|
  {
    var s := AfterSpawn(w, input);
    HitsCountsHitIndices(s.coins, input.dt, input.player);
    World(UpdateAll(s.coins, input.dt, input.player), s.spawnTimer,
          s.score + Hits(s.coins, input.dt, input.player))
  }

  /** Coin `i` is scored during the frame driven by `input`. */
  predicate Scored(w: World, input: FrameInput, i: nat)
  {
    var s := AfterSpawn(w, input);
    i < |s.coins| && IsHit(s.coins[i], input.dt, input.player)
  }

  /** The world after a sequence of frames. */
  function Run(w: World, inputs: seq<FrameInput>): (r: World)
    ensures |w.coins| <= |r.coins| <= |w.coins| + |inputs|
    ensures r.score >= w.score
    decreases |inputs|
  {
    if inputs == [] then w else Run(Frame(w, inputs[0]), inputs[1..])
  }

  /** In how many of the frames coin `i` is scored. */
  function TimesScored(w: World, inputs: seq<FrameInput>, i: nat): nat
    decreases |inputs|
  {
    if inputs == [] then 0
    else (if Scored(w, inputs[0], i) then 1 else 0) + TimesScored(Frame(w, inputs[0]), inputs[1..], i)
  }

  /** A coin that is collected stays where it is and stays collected, whatever frames follow. */
  lemma {:induction false} RunKeepsCollected(w: World, inputs: seq<FrameInput>, i: nat)
    requires i < |w.coins| && w.coins[i].collected
    ensures i < |Run(w, inputs).coins| && Run(w, inputs).coins[i] == w.coins[i]
    decreases |inputs|
  {
    if inputs != [] {
      RunKeepsCollected(Frame(w, inputs[0]), inputs[1..], i);
    }
  }

  /** A collected coin is never scored again. */
  lemma {:induction false} CollectedNeverScored(w: World, inputs: seq<FrameInput>, i: nat)
    requires i < |w.coins| && w.coins[i].collected
    ensures TimesScored(w, inputs, i) == 0
    decreases |inputs|
  {
    if inputs != [] {
      assert !Scored(w, inputs[0], i);
      CollectedNeverScored(Frame(w, inputs[0]), inputs[1..], i);
    }
  }

  /** Over any run, each coin is scored at most once in its lifetime. */
  lemma {:induction false} ScoredAtMostOnce(w: World, inputs: seq<FrameInput>, i: nat)
    ensures TimesScored(w, inputs, i) <= 1
    decreases |inputs|
  {
    if inputs != [] {
      var w' := Frame(w, inputs[0]);
      if Scored(w, inputs[0], i) {
        assert i < |w'.coins| && w'.coins[i].collected;
        CollectedNeverScored(w', inputs[1..], i);
      } else {
        ScoredAtMostOnce(w', inputs[1..], i);
      }
    }
  }

  /** The coins that a run scores, each exactly once. */
  function ScoredCoins(w: World, inputs: seq<FrameInput>): set<nat>
  {
    set i: nat | i < |Run(w, inputs).coins| && TimesScored(w, inputs, i) == 1
  }

  /** Over any run, the score grows by exactly the number of distinct coins captured by proximity. */
  lemma {:induction false} RunScoreCountsScoredCoins(w: World, inputs: seq<FrameInput>)
    ensures Run(w, inputs).score == w.score + |ScoredCoins(w, inputs)|
    decreases |inputs|
  {
    if inputs == [] {
      assert ScoredCoins(w, inputs) == {};
    } else {
      var input, rest := inputs[0], inputs[1..];
      var next := Frame(w, input);
      var hits := HitIndices(AfterSpawn(w, input).coins, input.dt, input.player);
      RunScoreCountsScoredCoins(next, rest);
      forall i | i in hits
        ensures i < |Run(w, inputs).coins| && TimesScored(w, inputs, i) == 1
        ensures i !in ScoredCoins(next, rest)
      {
        assert Scored(w, input, i);
        assert i < |next.coins| && next.coins[i].collected;
        CollectedNeverScored(next, rest, i);
      }
      forall i: nat | i !in hits
        ensures TimesScored(w, inputs, i) == TimesScored(next, rest, i)
      {
        assert !Scored(w, input, i);
      }
      assert ScoredCoins(w, inputs) == hits + ScoredCoins(next, rest);
      assert hits * ScoredCoins(next, rest) == {};
    }
  }

  /** The score is non-negative and never exceeds the number of collected coins. */
  ghost predicate ScoreBounded(w: World)
  {
    0 <= w.score <= CountCollected(w.coins)
  }

  /** Every point of score is backed by a coin that the same frame collected. */
  lemma FrameKeepsScoreBounded(w: World, input: FrameInput)
    requires ScoreBounded(w)
    ensures ScoreBounded(Frame(w, input))
  {
    var s := AfterSpawn(w, input);
    if SpawnDue(w, input.dt) {
      AppendLiveCoin(w.coins, NewCoin(input.drawX, input.drawZ, input.drawSpeed));
    }
    UpdateAllCollectsHits(s.coins, input.dt, input.player);
    HitsCountsHitIndices(s.coins, input.dt, input.player);
  }

  lemma {:induction false} RunKeepsScoreBounded(w: World, inputs: seq<FrameInput>)
    requires ScoreBounded(w)
    ensures ScoreBounded(Run(w, inputs))
    decreases |inputs|
  {
    if inputs != [] {
      FrameKeepsScoreBounded(w, inputs[0]);
      RunKeepsScoreBounded(Frame(w, inputs[0]), inputs[1..]);
    }
  }

  /** `barLength = min(score / maxScore, 1)`. */
  function BarLength(score: int): (r: real)
    ensures score >= 0 ==> 0.0 <= r <= 1.0
    ensures score as real >= MAX_SCORE ==> r == 1.0
    ensures score as real <= MAX_SCORE ==> r * MAX_SCORE == score as real
  {
    var fraction := score as real / MAX_SCORE;
    if 1.0 < fraction then 1.0 else fraction
  }

  /** From program start, every frame draws a bar between empty and full, at most one coin per frame. */
  lemma ReachableWorld(inputs: seq<FrameInput>)
    ensures var w := Run(INITIAL, inputs);
            0 <= w.score <= CountCollected(w.coins) <= |w.coins| <= |inputs|
            && 0.0 <= BarLength(w.score) <= 1.0
  {
    RunKeepsScoreBounded(INITIAL, inputs);
  }

  /** Three frames of 0.1 s spawn exactly one coin, on the third, and reset the timer to zero. */
  lemma ThreeTenthsSpawnOnce(player: Vec3)
    ensures var input := FrameInput(0.1, player, 0, 0, 0);
            var w1 := Frame(INITIAL, input);
            var w2 := Frame(w1, input);
            var w3 := Frame(w2, input);
            |w2.coins| == 0 && |w3.coins| == 1 && w3.spawnTimer == 0.0
  {
  }

  /** The three gameplay globals, updated in place once per frame. */
  class GameState {
    var coins: seq<Coin>
    var spawnTimer: real
    var score: int

    constructor ()
      ensures State() == INITIAL
    {
      coins := [];
      spawnTimer := 0.0;
      score := 0;
    }

    function State(): World
      reads this
    {
      World(coins, spawnTimer, score)
    }

    /** The gameplay update of one frame: spawn, then move and collect every live coin. */
    method Step(dt: real, player: Vec3, drawX: nat, drawZ: nat, drawSpeed: nat)
      modifies this
      ensures State() == Frame(old(State()), FrameInput(dt, player, drawX, drawZ, drawSpeed))
    {
      ghost var input := FrameInput(dt, player, drawX, drawZ, drawSpeed);
      spawnTimer := spawnTimer + dt;
      if spawnTimer >= SPAWN_INTERVAL {
        spawnTimer := 0.0;
        coins := coins + [NewCoin(drawX, drawZ, drawSpeed)];
      }
      assert State() == AfterSpawn(old(State()), input);
      UpdateCoins(dt, player);
    }

    /** The `for (auto& c : coins)` loop. */
    method UpdateCoins(dt: real, player: Vec3)
      modifies this`coins, this`score
      ensures coins == UpdateAll(old(coins), dt, player)
      ensures score == old(score) + Hits(old(coins), dt, player)
    {
      ghost var entry := coins;
      var i := 0;
      while i < |coins|
        invariant 0 <= i <= |coins| == |entry|
        invariant forall k :: 0 <= k < i ==> coins[k] == UpdateCoin(entry[k], dt, player)
        invariant forall k :: i <= k < |coins| ==> coins[k] == entry[k]
        invariant score == old(score) + Hits(entry[..i], dt, player)
      {
        assert entry[..i + 1][..i] == entry[..i];
        var c := coins[i];
        if !c.collected {
          c := c.(position := c.position.(y := c.position.y - c.speed * dt));
          if c.position.y < FLOOR_Y {
            c := c.(collected := true);
          }
          if DistanceSquared(player, c.position) < CAPTURE_RADIUS * CAPTURE_RADIUS {
            c := c.(collected := true);
            score := score + 1;
          }
          coins := coins[i := c];
        }
        i := i + 1;
      }
      assert entry[..i] == entry;
    }
  }
}
