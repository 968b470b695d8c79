# The hungry snake game: a verified model of its state update

The game runs in a browser. A snake moves one cell per timer tick on a fixed
30 × 30 board (`gridCount`). Food, a power-up (the star) and poison sit on
the board. Moving onto food scores 1 and grows the snake. Moving onto the
power-up scores 5, grows the snake and starts a 100-tick power-up timer.
Moving onto poison costs 3 points, never going below 0, and does not grow
the snake. Leaving the board or running into the body ends the game, and
`resetGame` starts a new one at once. Arrow keys and on-screen buttons
steer the snake, but a request for the reverse of the current direction is
ignored.

The project models the state-changing part of `script.js`:

- `grid.dfy`, module `Grid`: cells, the four directions, the board bounds,
  one step in a direction, and `randomPosition` as a function of the two
  random draws.
- `rules.dfy`, module `Rules`: the whole game state as one value (`State`).
  It also holds the steering rule, the outcome of a tick, one tick (`Tick`),
  `resetGame` (`Reset`) and runs of input and timer events (`Run`).
- `properties.dfy`, module `Properties`: lemmas about those functions. They
  cover the effect of a tick case by case, an invariant that every event
  keeps, and how long a power-up lasts.
- `game.dfy`, module `Session`: class `Game`. Its fields are the script's
  global variables (`snake`, `direction`, `food`, `score`, `powerUp`,
  `poison`, `powerUpActive`, `powerUpTimer`). Its methods update the fields
  in place, like the script: the frame update, `resetGame`, the keydown
  listener and `changeDirection`. Each method is proved to leave exactly
  the state that the matching function of `Rules` describes.

The random placements are parameters. `Step` and `Reset` take a
`Placements` value: the cells that `randomPosition` would return for food,
the power-up and poison, in that order. `Step` uses only the ones the tick
replaces. The eat sound and the game-over alert are returned by `Step` as a
`Signal`. The alert carries the score the game ended with.

Invariant `Rules.Valid` holds between any two events:

- the snake is non-empty and lies on the board;
- no cell holds two segments, and each segment is adjacent to the one
  before it;
- food, power-up and poison are on the board;
- the score is at least 0;
- the power-up timer lies in [0, 100) and is at least 1 while the power-up
  is active.

The script has a single `direction` variable (script.js:10), and every
request is checked against its current value (script.js:35-38). Two
requests between ticks can therefore turn the snake around:
`TwoRequestsReverse` shows Up then Left turning a snake that heads right
into its own neck. The board is fixed at `gridCount = 30` cells
(script.js:5).

## Model

| member | source | states |
|---|---|---|
| Grid.Opposite | script.js:35-38 | The refused reverse of a direction differs from it and lies on the same axis. |
| Grid.Advance | script.js:57-61 | The next head is adjacent to the old head. It is y−1 exactly for UP, y+1 exactly for DOWN, x−1 exactly for LEFT and x+1 exactly for RIGHT. |
| Grid.RandomPosition | script.js:26-31 | For draws in [0, 1), `floor(draw * 30)` on both axes gives a cell on the board. |
| Rules.Initial | script.js:9-16 | The initial globals satisfy the game invariant. |
| Rules.Steer | script.js:35-38 | A request never leaves the reverse of the current direction. A request is taken exactly when it is not that reverse, and otherwise the direction is unchanged. |
| Rules.KeyRequest | script.js:35-38 | Only the four arrow keys ask for a direction, each for its own. Every other key asks for nothing. |
| Rules.ButtonRequest | script.js:162-167 | Only "up", "down", "left" and "right" ask for a direction. Every other argument asks for nothing. |
| Rules.HitsBody | script.js:67 | True exactly when the cell equals a segment at some index ≥ 1, the tail included. |
| Rules.Reset | script.js:107-114 | The snake becomes [(10,10)], the direction RIGHT and the score 0. Food, power-up and poison come from the placements. The power-up becomes inactive and its timer keeps its value. |
| Rules.Tick | script.js:57-96 | After any tick the snake is non-empty. |
| Rules.OutcomeOf | script.js:64-67 | A tick ends the game exactly when the next head is off the board or equals a segment at index ≥ 1. On any other tick the next head is an on-board cell that no segment occupies. |
| Rules.Resolve | script.js:77-92 | After the new head is put in front, the snake keeps its length exactly when the head is on food or the power-up, and otherwise loses its last segment. The direction is unchanged, and the score either does not drop or becomes max(0, score − 3); a non-negative score stays non-negative. |
| Rules.Decay | script.js:94-96 | Only the power-up flag and timer change. An active timer drops by 1, and the power-up stays on exactly when it was on with a timer above 1. An inactive one is untouched. |
| Rules.SignalOf | script.js:64-92 | The game-over alert, carrying the current score, comes exactly on a game-over tick. The eat sound comes exactly when food is eaten. Every other tick is silent. |
| Rules.Apply | script.js:34-96 | A direction request changes only the direction, to the one the steering rule gives: the request is taken exactly when it is not the reverse of the current direction. Either event leaves a non-empty snake. |
| Rules.Run | script.js:34-96 | A run of events leaves a non-empty snake. A run with no timer firing changes nothing but the direction, which becomes the result of steering by each request in order. |
| Properties.OppositeInvolutive | script.js:35-38 | Reversing a direction twice gives it back. |
| Properties.RandomPlacementsInBounds | script.js:26-31 | The three cells that `randomPosition` yields for food, power-up and poison, for draws in [0, 1), are all on the board, so they meet the placement assumption of `Tick` and `Reset`. |
| Properties.AdvanceThenBack | script.js:57-61 | A step followed by a step in the opposite direction returns to the start cell. |
| Properties.KeyAndButtonSteering | script.js:162-167 | A key or button naming the reverse of the current direction leaves it unchanged. One naming any other direction sets it. An unknown key or name leaves it unchanged. |
| Properties.GameOverResets | script.js:68-73 | A game-over tick leaves the snake [(10,10)] heading RIGHT, score 0, the three fresh placements and the power-up off, with the timer untouched. |
| Properties.TailIsObstacle | script.js:67 | Moving onto the current tail cell ends the game, although the tail would have moved. |
| Properties.FirstMatch | script.js:77-92 | The eaten consumable is the first of food, power-up and poison on the new head. With none of them there, the snake just moves. |
| Properties.TickMovesSnake | script.js:75-92 | On a tick that does not end the game, the new snake is [head] + old for food or power-up (length +1). It is [head] + old minus its last segment for poison or an empty cell (same length). |
| Properties.TickScore | script.js:77-92 | Food gives +1, the power-up +5 and poison max(0, score − 3). Otherwise the score is unchanged, and a game over resets it to 0. A non-negative score stays non-negative. |
| Properties.TickRepositions | script.js:77-92 | Only the eaten consumable takes a new placement. The other two and the direction are unchanged. |
| Properties.TickTimer | script.js:83-96 | A pickup leaves the power-up active with timer 99: it is set to 100 and counted down the same tick. Otherwise an active timer drops by 1 and switches off at 0, and an inactive one is untouched. A game over switches the power-up off without counting down. |
| Properties.TickKeepsInBounds | script.js:64-75 | A snake whose segments are all on the board is still on the board after the tick. |
| Properties.DistinctMeansNoRepeats | script.js:67 | The recursive "no cell twice" predicate means no two indices of the snake hold equal cells. |
| Properties.ConnectedMeansAdjacent | script.js:57-61 | The recursive path predicate means every two consecutive segments are adjacent. |
| Properties.PopKeepsPath | script.js:88-91 | Dropping the last segment keeps the snake self-avoiding, connected and on the board. |
| Properties.PrependKeepsPath | script.js:75 | A new head that is adjacent to the old head and not in the body keeps the snake a self-avoiding connected path, with or without the last segment. |
| Properties.TickKeepsValid | script.js:57-96 | Every tick with placements on the board keeps the game invariant. |
| Properties.RunKeepsValid | script.js:34-96 | Any sequence of direction requests and ticks keeps the invariant. In particular the score is never negative and the snake never leaves the board. |
| Properties.OutcomesPerFrame | script.js:57-96 | A run yields one tick outcome per timer firing. |
| Properties.PowerUpExpires | script.js:94-96 | With no new pickup, an active power-up is off once at least as many ticks have run as its timer showed. |
| Properties.PowerUpLasts | script.js:94-96 | With no pickup and no game over, an active power-up is still on while fewer ticks have run than its timer showed, and its timer is lower by the number of ticks. |
| Properties.PickupLastsHundredTicks | script.js:81-96 | A power-up that is not picked up again is off at the end of the 100th tick, counting the pickup tick. Without a game over it is on at the end of every earlier tick. |
| Properties.TwoRequestsReverse | script.js:35-38 | Up then Left, both before one tick, turn a snake heading right to LEFT. With a body behind the head, that tick ends the game. |
| Properties.FoodExample | script.js:75-80 | The snake [(10,10)] heading RIGHT with food at (11,10) becomes [(11,10),(10,10)]. It scores 1, gets new food and plays the eat sound. |
| Properties.WallExample | script.js:64-73 | The snake [(0,0)] heading LEFT leaves the board, alerts with its score and restarts at (10,10), heading RIGHT, with score 0. |
| Properties.PoisonExample | script.js:86-89 | The snake [(5,5),(4,5)] heading RIGHT onto poison at (6,5) becomes [(6,5),(5,5)]. The score becomes max(0, score − 3) and the poison moves. |
| Properties.TailExample | script.js:67 | A four-segment snake curled into a square, moving onto its tail, ends the game. |
| Session.Game.constructor | script.js:9-16 | The object starts with the script's initial globals and satisfies the invariant. |
| Session.Game.KeyDown | script.js:34-39 | The keydown listener sets the direction the steering rule gives for the key, never the reverse of the old direction. Only `direction` changes, and the invariant is kept. |
| Session.Game.ChangeDirection | script.js:162-167 | The button handler sets the direction the steering rule gives for the name. Only `direction` changes. |
| Session.Game.Reset | script.js:107-114 | The fields become the reset state of the old state, and the invariant is kept. |
| Session.Game.Step | script.js:57-96 | The fields become `Tick` of the old state, with placements on the board. The invariant is kept, and the returned signal is the alert or eat sound of the tick. |
| Session.Game.EatAtHead | script.js:77-92 | The consumable chain leaves the `Resolve` state of the snake with its new head. It reports whether food was eaten. |
| Session.Game.CountDown | script.js:94-96 | An active timer is decremented and switches the power-up off at ≤ 0. An inactive one is untouched. |

## Left out

- Drawing (`drawEmoji`, the canvas fill, the fruit emoji choice and the score text, script.js:41-55 and 98-104) is output only and is not modelled.
- Audio (`playEatSound`, `playGameOverSound`, script.js:151-159) and `alert` are modelled only as the `Signal` that `Step` returns.
- The interval timer is not modelled: `setInterval` and `clearInterval` in `resetGame` and at start-up, and the speed listener (script.js:115-128). `Run` represents each timer firing as one `Frame` event.
- The volume listener, background-music autoplay and the resize handler (script.js:130-148, 169-176) are pure UI. The volume is a float.
- `Math.random` is not modelled. Its draws are parameters in [0, 1), and nothing is said about their distribution. `Grid.RandomPosition` uses exact reals: JavaScript's double-precision product `Math.random() * 30` is not modelled.
- Scores are unbounded integers. JavaScript numbers lose precision above 2^53, far beyond any reachable score.
- Rules.Tick: its own contract states only that the snake stays non-empty. What a tick does is stated by the `Properties` lemmas and by `Session.Game.Step`, whose contract equates the new fields with `Tick`.
- Rules.Resolve: its contract gives the shape of the snake, the direction and bounds on the score, not the exact score and placements of each case. Those are stated per outcome by `Properties.TickMovesSnake`, `Properties.TickScore`, `Properties.TickRepositions` and `Properties.TickTimer`.
- Rules.Apply: for a timer firing its contract says only that the snake stays non-empty. The effect of that case is `Tick`, described by the `Properties` tick lemmas.
- Rules.Run: its contract gives the exact state only for runs without a timer firing. Runs with timer firings runs are described by `Properties.RunKeepsValid`, `Properties.OutcomesPerFrame`, `Properties.PowerUpExpires` and `Properties.PowerUpLasts`.
