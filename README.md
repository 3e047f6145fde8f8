# Snake game state, modelled in Dafny

This project models the game logic of a small pygame Snake game (`the_snake.py`). A snake moves one grid cell per tick on a 640×480 screen and wraps around at the edges. It grows after its head has been on the apple, and it is reset when its head lands on its own body. The model also covers the key handling that sets the pending direction, and the order of operations in one pass of the main loop.

Coordinates are pixels, as in the program. Every snake segment is a multiple of the 20-pixel grid size inside the screen. The snake starts at, and is reset to, the centre `(320, 240)`.

Files and modules:

- `wrappers.dfy`, module `Wrappers`: the `Option` type, used for the pending direction and the last vacated cell.
- `board.dfy`, module `Board`: the screen and grid constants, the four direction vectors, their reversal pairing, and `Step`, the wrap-around move of the head.
- `snake.dfy`, module `Snakes`: `SnakeState` is the snake object's fields as a value. The functions `Moved`, `DirectionUpdated` and `AfterReset` are the effects of `move`, `update_direction` and `reset`. `SelfCollision` is the main loop's collision test. The class `Snake` has the same fields, and its methods perform these changes in place. Each method's `ensures` ties its new state to the matching function of its old state.
- `apple.dfy`, module `Apples`: `RandomizePosition`, which takes the two random draws as parameters, and the class `Apple`.
- `input.dfy`, module `Input`: the key-press chain `KeyAccept` and `ResolveEvents`, the fold over one tick's events. `HandleKeys` is the loop that writes the snake's pending direction.
- `game.dfy`, module `Game`: `EatStep`, `TickStep` (one tick) and `Run` (a finite sequence of ticks) as functions. `EatApple`, `Tick` and `Play` are methods on the two objects, each proved equal to its function. The module also holds the lemmas about whole ticks and runs.

Behaviour as the code has it:

- `reset` leaves the pending direction and `last` untouched. This does no harm: the direction update earlier in the same tick has already emptied the pending slot.
- The apple is checked before the snake moves. A snake that moves onto the apple therefore grows one tick later (`Game.EatThenGrow`).
- The apple's draws run from 1 to 32 and from 1 to 24. The apple is never placed in the left column or the top row. A draw at its maximum puts the apple at x = 640 or y = 480, just off the screen, where the head can never be. From then on the apple is never eaten and the snake never grows again (`Game.OffGridAppleStays`).
- Key presses are checked against the committed direction, not the pending one. In one tick, the last accepted press wins.
- The reset sets the direction to right whatever it was before. A snake going left that collides with itself therefore reverses in that tick. This is the one way the direction can flip in a single tick (`Game.TickStep`).

## Model

| member | source | states |
|---|---|---|
| `Board.Step` | the_snake.py:98-104 | The new head is always on screen, and it stays on a grid line if the old head was on one. It equals the plain one-cell step when that stays on screen. Otherwise it re-enters from the opposite edge, one screen width or height away. The head never stays where it was. |
| `Snakes.Initial` | the_snake.py:52-72 | A new snake is at rest: one segment at the centre, moving right, nothing pending, nothing vacated. |
| `Snakes.Moved` | the_snake.py:96-110 | The new head is `Step` of the old head. The old body follows it unchanged except possibly the tail. The tail is popped into `last` exactly when the body would exceed `length`, and otherwise `last` is None. `len(positions) == length` is preserved. After `length` was raised by one, the body grows by exactly one. No other field changes, and the object invariant is kept. |
| `Snakes.DirectionUpdated` | the_snake.py:112-116 | A pending direction becomes the direction and the pending slot is emptied. With nothing pending, the state is unchanged. Together these make a second call a no-op. Only these two fields change. |
| `Snakes.AfterReset` | the_snake.py:122-127 | The body becomes `[position]`, which is `[(320, 240)]` for a valid snake. The direction becomes right and `length` becomes 1, whatever the earlier state. The pending direction, `last` and `position` are left as they were. |
| `Snakes.SelfCollision` | the_snake.py:202 | The test holds exactly when the head equals a segment at index 2 or later. The segment right behind the head never counts. |
| `Snakes.Snake.constructor` | the_snake.py:52-72 | A new snake object is in the `Initial` state. Its base `position` is always the centre. |
| `Snakes.Snake.Move` | the_snake.py:96-110 | Inserts the new head and pops the tail in place. The new state is `Moved` of the old one. |
| `Snakes.Snake.UpdateDirection` | the_snake.py:112-116 | The new state is `DirectionUpdated` of the old one. |
| `Snakes.Snake.GetHeadPosition` | the_snake.py:118-120 | Returns the head, which is on a grid cell when the object invariant holds. |
| `Snakes.Snake.Reset` | the_snake.py:122-127 | The new state is `AfterReset` of the old one. |
| `Apples.RandomizePosition` | the_snake.py:138-143 | The position is on a grid line, with x in [20, 640] and y in [20, 480]. It is a cell the snake can reach exactly when neither draw is at its maximum. |
| `Apples.RandomizeReaches` | the_snake.py:138-143 | Every reachable cell outside the left column and the top row is produced by some pair of draws. |
| `Apples.Apple.constructor` | the_snake.py:133-136 | A new apple's position is `RandomizePosition` of the draws. |
| `Input.KeyAccept` | the_snake.py:162-170 | The `if`/`elif` chain accepts a key exactly when it is an arrow whose direction is not the reversal partner of the current direction. An accepted key yields that arrow's direction. |
| `Input.ResolveEvents` | the_snake.py:155-170 | Handling reports a quit exactly when a quit event is in the queue. The resulting pending direction is either the one before handling or the result of an accepted key press that comes before any quit. A pending direction that changed is a direction and never the reverse of the current direction. |
| `Input.LastAcceptedKeyWins` | the_snake.py:157-170 | If no quit comes before it, the last accepted key press sets the pending direction. Later rejected presses and events after a quit do not change it. |
| `Input.HandleKeys` | the_snake.py:155-170 | The loop leaves `direction` unchanged. It sets the pending direction and the quit flag to what `ResolveEvents` gives for the events. |
| `Game.EatStep` | the_snake.py:179-182 | `length` grows by exactly one exactly when the head is on the apple. In that case the apple is redrawn; otherwise nothing changes. Nothing else about the snake changes. |
| `Game.MovedCollision` | the_snake.py:202 | After the direction update and the move, the body is the new head followed by the old segments that were not popped. The collision test holds exactly when the new head equals one of those old segments other than the old head. |
| `Game.Advance` | the_snake.py:192-203 | The whole result is given in terms of the old state. If the new head lands on an old segment beyond the neck that is not popped, the snake is reset: body `[position]`, direction right, length 1, nothing pending, `last` the popped tail if any. Otherwise the snake moved one `Step` in its updated direction, keeping the old segments that were not popped. In both cases the result is not in a self-collision and the object invariant is kept. |
| `Game.TickStep` | the_snake.py:184-203 | A tick ends the game exactly when a quit event is queued. Otherwise it ends with no self-collision and keeps the at-rest invariant: the body has `length` segments, all on grid cells, and nothing is pending. From rest, the snake heads in the direction the keys resolved to, or keeps its own when no key was accepted. That direction is never the reverse of the old one. The tick resets the snake exactly when the new head lands on an old segment beyond the neck that is not popped this tick. If it ate, all old segments stay; if not, the old tail does not count. Without a collision, the head is one `Step` in that direction. If the head was on the apple at the start, the snake grew by one, kept its whole old body, and the apple was redrawn. Otherwise it kept its length, vacated exactly its old tail into `last`, and the apple stayed. |
| `Game.Run` | the_snake.py:184-203 | Over any finite sequence of ticks, the at-rest invariant holds at the end of every tick that does not quit. |
| `Game.OffGridAppleStays` | the_snake.py:140-143 | An apple placed off the reachable cells stays where it is over any run, and the snake's length never increases. |
| `Game.QuietTick` | the_snake.py:188-203 | With no input, a one-segment snake whose head is not on the apple moves one `Step` in its direction, vacates its old cell into `last`, and keeps the apple where it is. |
| `Game.ThreeQuietTicks` | the_snake.py:184-203 | With no input and the apple elsewhere, three ticks move a new snake from (320, 240) to (380, 240), still one segment long. |
| `Game.EatThenGrow` | the_snake.py:179-194 | With the apple one cell ahead, the first tick moves the head onto it without growth. The second tick grows the snake to two segments, keeps the apple's old cell as the neck, and redraws the apple. |
| `Game.ReverseKeyIgnored` | the_snake.py:167-168 | While moving right, a left press changes nothing in the tick. |
| `Game.EatApple` | the_snake.py:179-182 | Mutates `length` and the apple's position in place, as `EatStep` says. |
| `Game.Tick` | the_snake.py:188-203 | One pass of the loop body on the two objects. It reports a quit exactly as `TickStep` does and otherwise reaches `TickStep`'s world. |
| `Game.Play` | the_snake.py:184-203 | The loop over a finite sequence of ticks reaches `Run`'s result. |

## Left out

- Drawing: every `draw` method, the rectangles, `screen.fill` (including the call in `reset`) and `pygame.display.update`. These are rendering calls with no game logic.
- Window, caption, `pygame.init` and the clock's `tick(SPEED)`: setup and timing, with no effect on state.
- Event polling: the events of a tick are an input sequence. A quit event stops the tick and is reported as `quit`. `pygame.quit()` and the `SystemExit` it raises are not modelled beyond that.
- Randomness: the two `randint` draws are parameters, constrained to 1..32 and 1..24. Which values a real generator picks is not modelled.
- The endless `while True` loop: modelled as a finite sequence of ticks (`Run`, `Play`). Termination by quit is covered.
- Colours (`body_color` and the colour constants) and the base class's `draw`: cosmetic only.
- The structure tests in `tests/test_code_structure.py` only check that names exist, so they add no behaviour.
