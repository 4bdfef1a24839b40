# Snake game: a verified model of the grid simulation

This project models the game logic of the `SnakeGame` component. A snake
moves on a 20×20 board, one cell per timer tick. Eating food grows it by
one segment and scores 10 points. Leaving the board or running into its own
body ends the game. The arrow keys, WASD and swipes steer it. A restart button
puts everything back to the start.

- `snake_rules.dfy` (module `SnakeRules`) holds the pure parts: cells and
  headings, the one-cell step, the segment test (`some` in the source), the
  reversal guard shared by every heading request, and the keyboard and swipe
  handlers' decision logic, each proved equal to that guard.
- `snake_game.dfy` (module `SnakeGame`) holds the game state as a value
  (`State`), the meaning of one tick (`Next`) and of a restart (`Initial`),
  the invariant of every reachable state (`Invariant`) with the lemma that
  every tick keeps it, and the lemmas for each outcome of a tick. It also
  holds the class `Game`, whose fields are the component's five pieces of
  state. Its methods `Tick`, `SetHeading`, `OnKey`, `OnSwipe` and `Reset`
  overwrite those fields. Each method is proved against the functions above.
- `snake_scenarios.dfy` (module `SnakeScenarios`) holds concrete runs: eating
  food after five ticks, hitting the left wall, closing a loop, and two
  behaviours of the code described below.

The invariant is stronger than "the score is a multiple of 10". The score is
always exactly 10 × (length − 1). Both start at zero growth, and every tick
either grows the snake by one and adds 10, or changes neither.

The model follows the code where it differs from what a player might expect:

- New food is drawn from the whole board and is not checked against the
  snake, so it can appear under a segment (`FoodMayLandOnSnake`).
- Reversing is refused whatever the snake's length, even for a one-cell
  snake (`ReverseDroppedForOneCell`).
- Heading requests are honoured while the game is over. The handlers never
  read the game-over flag, and `SetHeading`, `OnKey` and `OnSwipe` do not
  either.
- The reversal guard compares against the last accepted heading, not the
  heading of the last tick. So two quick turns (right, up, left) between
  ticks reverse a longer snake into its neck and end the game
  (`TwoTurnsReverse`). A single `direction` field models this, since the
  code keeps the reference in step with every accepted heading.

## Model

| member | source | states |
|---|---|---|
| `SnakeRules.Opposite` | src/components/organism/snake.tsx:153-171 | the heading each guard refuses is never the current heading itself, and lies on the same axis |
| `SnakeRules.Step` | src/components/organism/snake.tsx:90-103 | the new head is edge-adjacent to the old one; Up/Down keep x, Left/Right keep y; x falls only for Left and y falls only for Up (screen coordinates) |
| `SnakeRules.StepBack` | src/components/organism/snake.tsx:90-103 | stepping the opposite way returns to the starting cell |
| `SnakeGame.NeckWhenHeadingIsLastMove` | src/components/organism/snake.tsx:153-171 | while the heading is the one the last tick moved by, the only heading that leads onto the second segment is the one the reversal guard refuses; after an accepted turn between ticks this no longer holds (`TwoTurnsReverse`) |
| `SnakeRules.Hits` | src/components/organism/snake.tsx:115-118 | the segment test is true exactly when the new head equals some segment of the body |
| `SnakeRules.Turn` | src/components/organism/snake.tsx:153-171 | a request is taken exactly when it is not the opposite of the current heading, otherwise the heading stays |
| `SnakeRules.KeyDirection` | src/components/organism/snake.tsx:148-172 | ArrowUp/w/W ask for Up, ArrowDown/s/S for Down, ArrowLeft/a/A for Left, ArrowRight/d/D for Right, and no other key asks for anything |
| `SnakeRules.KeyTurn` | src/components/organism/snake.tsx:148-172 | the key handler, with its four per-key guards, leaves the heading alone for other keys and otherwise applies the shared reversal guard to the key's heading |
| `SnakeRules.SwipeDirection` | src/components/organism/snake.tsx:200-219 | a swipe is horizontal only when its horizontal travel is strictly larger; it counts only when the travel on its axis exceeds 30; its sign picks the heading; it asks for nothing exactly when both travels are at most 30 |
| `SnakeRules.SwipeTurn` | src/components/organism/snake.tsx:202-219 | the swipe handler, branch for branch, leaves the heading alone for short swipes and otherwise applies the shared reversal guard to the swipe's heading |
| `SnakeGame.NextHead` | src/components/organism/snake.tsx:86-103 | the cell the head moves to by the current heading is always an edge neighbour of the head |
| `SnakeGame.Initial` | src/components/organism/snake.tsx:238-244 | a restart gives the one-cell snake at (10,10), heading Right, score 0, game running, food on the drawn cell, and that state satisfies the invariant |
| `SnakeGame.Next` | src/components/organism/snake.tsx:82-135 | a tick never empties the snake and never changes the heading |
| `SnakeGame.NextWhenOver` | src/components/organism/snake.tsx:83 | once the game is over a tick changes nothing: snake, food, heading and score stay |
| `SnakeGame.NextOffBoard` | src/components/organism/snake.tsx:105-113 | a head that would leave [0,20) on either axis sets game over and changes nothing else |
| `SnakeGame.NextSelfCollision` | src/components/organism/snake.tsx:115-122 | a head that would land on any segment sets game over and changes nothing else |
| `SnakeGame.NextIntoTail` | src/components/organism/snake.tsx:115-122 | moving onto the tail cell, which the move would free, still ends the game with the snake in place |
| `SnakeGame.NextEndsGame` | src/components/organism/snake.tsx:105-122 | a running game ends on a tick exactly when the head would leave the board or hit the body, and then the snake does not move |
| `SnakeGame.NextMove` | src/components/organism/snake.tsx:124-133 | a legal move onto a non-food cell gives `[newHead] + snake minus its last cell`, and keeps length, score and food, with the game still running |
| `SnakeGame.NextEat` | src/components/organism/snake.tsx:124-128 | a legal move onto the food gives `[newHead] + snake` (one longer), adds exactly 10 to the score and puts the food on the drawn cell |
| `SnakeGame.NextPreservesInvariant` | src/components/organism/snake.tsx:105-133 | every tick keeps the snake non-empty, on the board, self-avoiding and edge-connected, the food on the board, and the score equal to 10 × (length − 1), a non-negative multiple of 10 |
| `SnakeGame.Game.constructor` | src/components/organism/snake.tsx:24-28 | a new game's fields are the start state and satisfy the invariant |
| `SnakeGame.Game.Tick` | src/components/organism/snake.tsx:82-135 | the step-by-step tick (head, wall test, segment test, grow, pop the tail) leaves the fields equal to `Next` of the old fields and keeps the invariant |
| `SnakeGame.Game.SetHeading` | src/components/organism/snake.tsx:153-171 | the heading becomes the request unless it is the exact opposite, whatever the length or game status; nothing else changes |
| `SnakeGame.Game.OnKey` | src/components/organism/snake.tsx:147-173 | a key press changes only the heading, by the reversal guard applied to the key's heading, and leaves it for other keys |
| `SnakeGame.Game.OnSwipe` | src/components/organism/snake.tsx:193-224 | a swipe changes only the heading, by the reversal guard applied to the swipe's heading, and leaves it for short swipes |
| `SnakeGame.Game.Reset` | src/components/organism/snake.tsx:238-244 | the restart overwrites all five fields with the start state, food on the drawn cell, and the invariant holds |
| `SnakeScenarios.FiveTicksToFood` | src/components/organism/snake.tsx:82-135 | from the start with food at (15,10), five ticks leave the head on (15,10), two segments, score 10, the food on the drawn cell |
| `SnakeScenarios.LeftWallEndsGame` | src/components/organism/snake.tsx:105-113 | the snake [(0,10)] heading left ends the game without moving |
| `SnakeScenarios.LoopCollision` | src/components/organism/snake.tsx:115-122 | the loop [(5,5),(6,5),(6,6),(5,6)] heading right into (6,5) ends the game without moving |
| `SnakeScenarios.TwoTurnsReverse` | src/components/organism/snake.tsx:153-171 | right, then up, then left between ticks is accepted and drives a two-cell snake into its neck, ending the game |
| `SnakeScenarios.ReverseDroppedForOneCell` | src/components/organism/snake.tsx:153-171 | a one-cell snake asked to reverse keeps its heading, and the next tick moves its head one cell the old way |
| `SnakeScenarios.FoodMayLandOnSnake` | src/components/organism/snake.tsx:126-128 | eating can place the new food on a segment of the grown snake, and the invariant still holds |

## Left out

- Randomness: the food cell from `Math.random` is a caller-supplied cell that must lie on the board. The model accepts any such cell, including one under the snake.
- The 200 ms interval timer and its start and stop: ticks are explicit calls to `Game.Tick`. The timer is scheduling, not game logic.
- React state plumbing: the separate state cells, the reference that mirrors the heading, and the tick's capture of `food` are one object with five fields that each operation reads and writes directly.
- SnakeGame.Game.OnSwipe: the touch-start bookkeeping is not modelled. This includes the guard that ignores a swipe whose start coordinate is exactly 0. The method takes the travel `(dx, dy)` as whole numbers, while the browser reports fractional pixels.
- Event-listener registration, `preventDefault`, tile-size layout, the mobile tutorial overlay and all rendering: these are browser presentation.
- Number width: JavaScript numbers are doubles. Coordinates stay within one cell of the board and the score grows by 10 per food, so unbounded integers give the same results.
- The landing page `src/app/page.tsx` is not part of this model: it holds no game logic.
