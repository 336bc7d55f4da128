# Snake rules engine, modelled in Dafny

This project models the rules engine of a browser Snake game (`src/snakeLogic.js`). The
engine keeps a snake on a `gridWidth x gridHeight` grid, with a heading, a heading
requested for the next tick, one food cell, a score and a game-over flag. It offers five
operations:

- `createRng`: a seeded 32-bit xorshift generator.
- `createGameState`: a new game.
- `setDirection`: ask for a new heading.
- `step`: one tick of the game.
- `placeFood`: pick a free cell for the food.

Two modules:

- `Xorshift` (`rng.dfy`) models `createRng`. Its `Rng` class holds the generator's 32-bit
  word as a `bv32`. `XorShift` is one call: xor in the word shifted left 13, then shifted
  right 17 (unsigned), then shifted left 5. The source returns the new word divided by 2^32.
  The model hands the caller the word itself. `Fraction` is that quotient as a real, and
  `Scaled(u, n)` is the draw `floor(rng() * n)` in exact integer arithmetic.
  `ScaledIsFloor` proves the two agree.
- `SnakeLogic` (`snake.dfy`) models the rest. `State` is the whole game as a value, which is
  what `snapshot` copies. `SetDirectionSpec`, `StepSpec`, `PlaceFoodSpec` and `InitSpec`
  define each operation on a state. They take the generator's word and give back the word
  after the operation. The class `Game` has one field per field of the source's state
  object and updates them in place. Each of its methods is proved to produce exactly the
  state and generator word that the matching function gives, read through `Snapshot()`.
  The lemmas state the rules of the game about those functions. `Board` is the board
  invariant: segments on the grid and pairwise distinct, food on the grid and off the snake
  unless it is the fallback cell `(0, 0)`, and the requested heading not the reverse of the
  current one. New games with a width of at least 4 meet it, and `setDirection` and `step`
  preserve it.

The self-collision test of `step` compares the next head with every current segment, the
tail included, although a plain move would vacate the tail in the same tick. The model
follows the code here (`TailCollides`).

Headings are a four-valued datatype `Dir`. The `DIRS` table is `Vector` (its vectors) and
`Key` (its keys). A lookup by any string other than the four keys gives `None`.

## Model

| member | source | states |
|---|---|---|
| `Xorshift.XorShiftZero` | src/snakeLogic.js:33-35 | one generator call maps a word to zero exactly when the word was zero |
| `Xorshift.XorShiftKnownAnswers` | src/snakeLogic.js:33-35 | one call maps 2463534242 to 723471715 and the default word 123456789 to 2714967881, the xorshift32 values with an unsigned right shift |
| `Xorshift.IterateNonZero` | src/snakeLogic.js:31-37 | a generator started from a non-zero word never reaches zero, however many calls follow |
| `Xorshift.IterateZero` | src/snakeLogic.js:31-37 | a generator at the zero word stays at zero on every call |
| `Xorshift.OutputsAt` | src/snakeLogic.js:31-37 | the i-th value the generator returns is the word after i + 1 calls |
| `Xorshift.SeedWordZero` | src/snakeLogic.js:30 | the starting word is zero exactly when the seed is a non-zero multiple of 2^32 (a zero seed becomes 123456789) |
| `Xorshift.Fraction` | src/snakeLogic.js:36 | the value handed out for a word lies in [0, 1) |
| `Xorshift.Scaled` | src/snakeLogic.js:72-73 | a draw scaled to n lies in [0, n) |
| `Xorshift.ScaledIsFloor` | src/snakeLogic.js:72-73 | the integer draw equals floor((word / 2^32) * n) computed in real arithmetic |
| `Xorshift.Rng.constructor` | src/snakeLogic.js:29-30 | the generator starts at the seed's word: 123456789 for seed 0, otherwise the seed's low 32 bits |
| `Xorshift.Rng.Next` | src/snakeLogic.js:31-37 | one call advances the word by one xorshift step and returns the new word |
| `Xorshift.Draw` | src/snakeLogic.js:31-37 | n calls return the words `Outputs(s, n)` in order and leave the generator n steps on |
| `Xorshift.SameSeedSameDraws` | src/snakeLogic.js:29-38 | two generators made from the same seed return the same sequence of words |
| `SnakeLogic.Lookup` | src/snakeLogic.js:91 | a key that finds a heading is that heading's key |
| `SnakeLogic.LookupKey` | src/snakeLogic.js:10-15 | each of the four keys finds its own heading |
| `SnakeLogic.SamePos` | src/snakeLogic.js:17-19 | two cells with equal coordinates are the same cell, and conversely |
| `SnakeLogic.OppositeVectors` | src/snakeLogic.js:21-23 | for two table vectors, they sum to zero exactly when one heading is the reverse of the other |
| `SnakeLogic.Candidate` | src/snakeLogic.js:72-74 | the cell one attempt draws is on the grid |
| `SnakeLogic.PlaceFoodDraws` | src/snakeLogic.js:70-86 | placeFood makes at most `attempts` attempts and consumes exactly two generator calls per attempt |
| `SnakeLogic.PlaceFoodMisses` | src/snakeLogic.js:76-85 | every attempt before the last one drew a cell of the snake |
| `SnakeLogic.PlaceFoodPick` | src/snakeLogic.js:71-87 | the result is the last attempt's cell if it is free; otherwise every attempt was used and the result is (0, 0) |
| `SnakeLogic.PlaceFoodResult` | src/snakeLogic.js:69-88 | the returned food is on the grid, and off the snake unless it is the fallback (0, 0) |
| `SnakeLogic.InitBoard` | src/snakeLogic.js:40-66 | a new game has score 0, is not over, heads right with right requested, and meets the board invariant exactly when the width is at least 4 |
| `SnakeLogic.SetDirectionEffect` | src/snakeLogic.js:90-97 | an unknown key, or the reverse of the current heading (not of the requested one), changes nothing; any other key replaces only the requested heading |
| `SnakeLogic.SetDirectionPreservesBoard` | src/snakeLogic.js:90-97 | setDirection keeps the board invariant |
| `SnakeLogic.StepWhenOver` | src/snakeLogic.js:99-102 | a step on a finished game changes neither the state nor the generator |
| `SnakeLogic.StepOverIsFinal` | src/snakeLogic.js:99-126 | a finished game stays finished, and once a step ends the game the next step is a no-op |
| `SnakeLogic.StepCommitsHeading` | src/snakeLogic.js:104 | a live step takes the requested heading as its heading |
| `SnakeLogic.StepCollision` | src/snakeLogic.js:104-126 | a live step ends the game exactly when the next head is off the grid or on any current segment, tail included; then only the heading and the flag change |
| `SnakeLogic.StepMove` | src/snakeLogic.js:128-132 | a step that does not eat keeps the length, puts old head plus heading in front, shifts every other segment one place back, and keeps food, score and generator |
| `SnakeLogic.StepEat` | src/snakeLogic.js:128-136 | an eating step keeps the whole old body behind the new head, adds exactly 1 to the score, and takes the food placeFood picks for the grown snake |
| `SnakeLogic.StepFirstCell` | src/snakeLogic.js:128-136 | a step that does not collide puts the next head first and adds at most 1 to the score |
| `SnakeLogic.TailCollides` | src/snakeLogic.js:121-126 | a step whose next head is the tail cell ends the game and leaves the snake in place, although a plain move would have vacated that cell |
| `SnakeLogic.StepPreservesBoard` | src/snakeLogic.js:99-139 | step keeps the board invariant |
| `SnakeLogic.MovePreservesBoard` | src/snakeLogic.js:128-132 | a plain move keeps the board invariant |
| `SnakeLogic.EatPreservesBoard` | src/snakeLogic.js:128-136 | an eating move keeps the board invariant |
| `SnakeLogic.ReversalIgnoredByStep` | src/snakeLogic.js:90-104 | after a request to reverse, the next step takes the heading that was requested before |
| `SnakeLogic.Game.constructor` | src/snakeLogic.js:40-67 | a new game object holds `InitSpec`'s state, and the generator has moved on by placeFood's draws |
| `SnakeLogic.Game.PlaceFood` | src/snakeLogic.js:69-88 | the loop returns `PlaceFoodSpec`'s food and leaves the generator at its word |
| `SnakeLogic.Game.SetDirection` | src/snakeLogic.js:90-97 | the object's new state is `SetDirectionSpec` of its old state, and only the requested heading may change |
| `SnakeLogic.Game.Step` | src/snakeLogic.js:99-139 | the object's new state and the generator's word are `StepSpec` of the old ones |
| `SnakeLogic.OpeningMove` | tests/snakeLogic.test.js:13-20 | one step of a new game at least 3 cells wide moves the head from the centre one cell right, with score 0 or 1, for any seed |
| `SnakeLogic.SnapshotSurvivesStep` | src/snakeLogic.js:141-152 | a snapshot taken before a step still holds the old state after it, while the object moves on to `StepSpec` of that snapshot |
| `SnakeLogic.SnapshotSurvivesSetDirection` | src/snakeLogic.js:141-152 | a snapshot taken before setDirection keeps the old requested heading, while the object moves on to `SetDirectionSpec` of that snapshot |
| `SnakeLogic.ReverseBlocked` | tests/snakeLogic.test.js:22-28 | a new game asked to turn left still heads right after the next step |

## Left out

- `src/game.js` is not part of this model. It holds the rendering, the keyboard, touch and DOM wiring, the pause flag and the timer that calls `step`.
- `Math.random` is not modelled (src/snakeLogic.js:44, 135). It is the default generator when a caller passes none. Here the caller always supplies an `Rng`.
- Option defaulting is not modelled (src/snakeLogic.js:41-43). A grid size of 0 becomes 20 in the source. `Game.constructor` instead requires a positive width and height.
- `Xorshift.Rng.constructor`: takes an integer seed. Non-integer and other falsy seeds (`NaN`, `undefined`) are not modelled.
- The DIRS lookup is only modelled for the four keys. Keys that JavaScript objects inherit, such as `"toString"`, are not modelled. Every other string gives `None`.
- `clonePos` has no member of its own. Positions are immutable values here, so a copy is the value itself. For the same reason the copy that `Game.Snapshot` returns cannot change when the game later moves.
- In the source, `direction` and `pendingDirection` point to the shared `DIRS` objects, and the tests compare them by identity. Here they are `Dir` values compared by equality.
- `setDirection` and `step` return the state object so calls can be chained. The methods here return nothing, because the object itself is the result.
- The tests assign `state.snake` and `state.food` directly. Those writes are not operations of the engine. The lemmas about `StepSpec` hold for every `State`, which includes such states.
- `Xorshift.Scaled`: computes floor(u * n / 2^32) exactly. The source's double product equals it only while u * n < 2^53, which holds for grid sides below 2^21. Larger grids are not modelled.
- `SnakeLogic.Game.Step`: requires a positive grid and a snake with at least one segment. The source throws on a live game with an empty snake, because it reads the coordinates of `snake[0]`. The requires also excludes a finished game with an empty snake, which the source returns untouched before it reads `snake[0]` (src/snakeLogic.js:100-102). The model does not cover that case: `StepSpec` and `StepWhenOver` also require a head.
