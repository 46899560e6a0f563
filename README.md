# Coin-collect gameplay update

A model of the gameplay core of the "3D Collect Game" sample: a coin is spawned
at height 10, over an 18 × 18 area centred at (10, 10), every 0.3 seconds of
accumulated frame time, every live coin falls at its own speed, a coin that
drops below y = -1 is despawned, and a coin that comes within 0.8 of the player
is collected and adds one point to the score, which is drawn as a bar that is
full at 100 points.

- `coins.dfy`, module `Coins`: the `Coin` record, the spawn of one coin from
  three `rand()` results, the update of one coin in one frame, and the count
  of coins scored by one pass of the per-coin loop.
- `game.dfy`, module `Game`: the three gameplay globals as a value `World`, one
  frame of the update as the function `Frame`, a sequence of frames as `Run`,
  lemmas over runs (collected coins stay untouched, each coin is scored at most
  once, the score never exceeds the number of collected coins), the score-bar
  fraction `BarLength`, and the class `GameState`, whose fields are the three
  globals and whose `Step` method performs the update in place. `Step` is
  proved to produce exactly `Frame` of the old state.

Floats are modelled by `real`. The distance test `length(player - coin) < 0.8`
is modelled as `squared distance < 0.8 * 0.8`. `Coins.CaptureMatchesLength`
proves that the two tests agree for every non-negative length whose square is
the squared distance. The frame time, the player position and the three `rand()` results are
parameters of `Step`. The model applies `% 1000` and `% 100` to the draws as the
source does, so any non-negative draw is accepted.

The floor test and the capture test are two separate `if` statements with no
`else` between them (cubemaps_skybox.cpp:236-245). A coin that drops below the
floor in the same frame that it comes within range is therefore still scored.
A reading in which the capture test sits in an `else` of the floor test, so that
a miss wins, does not match the code. The model follows the code, and `Coins.FloorMissCanStillScore` exhibits such a frame.
`Coins.GroundedPlayerMissesFallenCoin` shows that the two readings agree
whenever the player stands at height -0.2 or above. `processInput` only moves
the player horizontally from height 0, so the running program keeps it there.

## Model

| member | source | states |
|---|---|---|
| `Coins.NewCoin` | 6.1.cubemaps_skybox/cubemaps_skybox.cpp:215-224 | a spawned coin is uncollected, at height 10, with speed in [2.0, 2.99] and x and z each in [1.0, 1.0 + 18 × 0.999] |
| `Coins.DistanceSquared` | 6.1.cubemaps_skybox/cubemaps_skybox.cpp:240 | the squared player–coin distance used for the capture test is never negative |
| `Coins.CaptureMatchesLength` | 6.1.cubemaps_skybox/cubemaps_skybox.cpp:240-241 | for a non-negative length L with L × L equal to the squared distance, `L < 0.8` holds exactly when the squared distance is below 0.64 |
| `Coins.CaptureWithinBox` | 6.1.cubemaps_skybox/cubemaps_skybox.cpp:240-241 | a point within capture range lies strictly within 0.8 of the player along each of x, y and z |
| `Coins.SpawnOffset` | 6.1.cubemaps_skybox/cubemaps_skybox.cpp:219-220 | for a non-negative ground size, the spawn offset lies in [-size/2, 0.999 × size - size/2] |
| `Coins.Fallen` | 6.1.cubemaps_skybox/cubemaps_skybox.cpp:233 | falling keeps x and z, and for non-negative speed and dt it never raises the coin |
| `Coins.IsHit` | 6.1.cubemaps_skybox/cubemaps_skybox.cpp:231-243 | a coin is scored only if it was uncollected at loop entry, and then its moved position lies strictly within 0.8 of the player along each axis |
| `Coins.UpdateAll` | 6.1.cubemaps_skybox/cubemaps_skybox.cpp:230-247 | the loop keeps the vector's length, leaves every collected coin exactly as it was, and leaves every scored coin collected |
| `Coins.UpdateCoin` | 6.1.cubemaps_skybox/cubemaps_skybox.cpp:231-245 | a collected coin is left unchanged; a live coin keeps x, z and speed and drops by exactly speed × dt; afterwards the coin is collected exactly when it was already collected, is strictly below -1, or is strictly within 0.8 of the player; a scored coin ends up collected |
| `Coins.Hits` | 6.1.cubemaps_skybox/cubemaps_skybox.cpp:240-243 | one pass of the loop increments the score at most once per coin |
| `Coins.HitsCountsHitIndices` | 6.1.cubemaps_skybox/cubemaps_skybox.cpp:230-243 | the number of score increments of one pass equals the number of distinct coins that were live at loop entry and land strictly within capture range |
| `Coins.UpdateAllCollectsHits` | 6.1.cubemaps_skybox/cubemaps_skybox.cpp:236-243 | after one pass the number of collected coins has grown by at least the number of points scored |
| `Coins.AppendLiveCoin` | 6.1.cubemaps_skybox/cubemaps_skybox.cpp:224-225 | pushing a freshly spawned coin does not change the number of collected coins |
| `Coins.FloorMissCanStillScore` | 6.1.cubemaps_skybox/cubemaps_skybox.cpp:236-245 | a coin that falls below the floor and is within capture range in the same frame is scored |
| `Coins.GroundedPlayerMissesFallenCoin` | 6.1.cubemaps_skybox/cubemaps_skybox.cpp:236-241 | with the player at height -0.2 or above, a coin that falls below the floor is never scored, because a scored coin lies within 0.8 of the player in height |
| `Game.AfterSpawn` | 6.1.cubemaps_skybox/cubemaps_skybox.cpp:210-225 | if timer + dt reaches 0.3, exactly one new coin is appended and the timer becomes 0, however large dt is; otherwise the coins are unchanged and the timer is timer + dt; the score is untouched |
| `Game.Frame` | 6.1.cubemaps_skybox/cubemaps_skybox.cpp:209-247 | one frame grows the vector by exactly one coin when the spawn is due and by none otherwise; it resets or advances the timer; every coin is updated by the per-coin rule, including the coin spawned in the same frame; the score grows by exactly the number of coins scored in the frame |
| `Game.Run` | 6.1.cubemaps_skybox/cubemaps_skybox.cpp:164-247 | over any sequence of frames the vector never shrinks, grows by at most one coin per frame, and the score never decreases |
| `Game.RunKeepsCollected` | 6.1.cubemaps_skybox/cubemaps_skybox.cpp:230-242 | a collected coin keeps its position, speed and flag through every later frame, so the flag never goes back to false |
| `Game.CollectedNeverScored` | 6.1.cubemaps_skybox/cubemaps_skybox.cpp:231-243 | a coin that is already collected is never scored in any later frame |
| `Game.ScoredAtMostOnce` | 6.1.cubemaps_skybox/cubemaps_skybox.cpp:230-243 | over any run, every coin is scored at most once in its lifetime |
| `Game.RunScoreCountsScoredCoins` | 6.1.cubemaps_skybox/cubemaps_skybox.cpp:164-247 | over any run the score grows by exactly the number of distinct coins scored by proximity during it; coins removed by the floor test alone, outside capture range, are not counted, while a coin that drops below -1 within range in the same frame is counted |
| `Game.FrameKeepsScoreBounded` | 6.1.cubemaps_skybox/cubemaps_skybox.cpp:225-243 | one frame keeps 0 <= score <= number of collected coins |
| `Game.RunKeepsScoreBounded` | 6.1.cubemaps_skybox/cubemaps_skybox.cpp:164-247 | every run keeps 0 <= score <= number of collected coins |
| `Game.BarLength` | 6.1.cubemaps_skybox/cubemaps_skybox.cpp:364-365 | for a non-negative score the bar fraction lies in [0, 1]; it is 1 from a score of 100 on, and score / 100 up to it |
| `Game.ReachableWorld` | 6.1.cubemaps_skybox/cubemaps_skybox.cpp:50-52 | from the initial globals, after n frames there are at most n coins, the score is between 0 and the number of collected coins, and the bar fraction lies in [0, 1] |
| `Game.ThreeTenthsSpawnOnce` | 6.1.cubemaps_skybox/cubemaps_skybox.cpp:210-218 | from program start, three frames of 0.1 s spawn no coin in the first two frames and exactly one in the third, and the timer is reset to 0 |
| `Game.GameState.constructor` | 6.1.cubemaps_skybox/cubemaps_skybox.cpp:50-52 | the globals start with no coins, a zero timer and a zero score |
| `Game.GameState.Step` | 6.1.cubemaps_skybox/cubemaps_skybox.cpp:209-247 | the in-place update of the three globals leaves them equal to `Frame` of their old values, so every property of `Frame` holds of it |
| `Game.GameState.UpdateCoins` | 6.1.cubemaps_skybox/cubemaps_skybox.cpp:230-247 | the in-place loop over the vector leaves every coin updated by the per-coin rule and adds the loop's hit count to the score |

## Left out

- Window, context and loader setup, callbacks, buffer swapping and event polling: these are calls into GLFW and GLAD.
- Shader, model, texture and cubemap loading, including `loadTexture` and `loadCubemap`: these are calls into stb_image and OpenGL.
- All rendering, including the HUD quad and the drawing of the score bar; only the bar fraction is modelled.
- `processInput` and the camera that follows the player: the player position is a parameter of each frame.
- The pause prompt, a blocking Windows message box guarded by two separate function-local `keyPressed` flags: it is operating-system UI.
- Single-precision rounding: `0.3f`, `0.8f` and every product and sum are exact reals here, so a frame whose float sum lands just below 0.3 is not modelled.
- `rand()` and `srand(time(NULL))`: the three draws of a frame are parameters.
- The 32-bit `int` width of `score`: the model's score is unbounded. Overflow would need 2^31 captured coins, and at most one coin spawns per frame.
- The end-to-end example of one coin falling at speed 2 onto a player standing under it in 0.1 s frames is not written out as a concrete run. `Coins.UpdateCoin`, `Game.ScoredAtMostOnce` and `Game.RunScoreCountsScoredCoins` state its outcome for every run: the coin is captured once its moved position is within range, and it is scored exactly once.
- Printing the score to the console on every capture, and the unused `gameOver` flag.
