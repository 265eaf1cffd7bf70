# Snakulator, modelled in Dafny

Snakulator is a Snake game with a sum quiz (`game.py`), plus a small tool for
cutting sprites out of a sprite sheet (`sprite_extractor.py`). The two
programs share no code. This project models the grid logic of both. Rendering
and pygame I/O are left out.

**Game (`game.py`).**
- The snake is a head-first list of cells with a direction and a pending-growth flag.
- Each tick the snake moves. If the head is on the correct fruit, the fruit moves
  and growth is scheduled, and a correct fruit lying under the body is moved
  away. Leaving the 20x20 board or biting the body resets the snake.
- Arrow keys change the direction under a no-reversal rule.
- Head, tail and body sprites are picked from the offsets to neighbouring cells.
- The quiz asks for `a + b` with operands in [1, 10]. The second fruit carries a
  different value drawn from [2, 20].

**Sprite extractor (`sprite_extractor.py`).**
- Grid snapping to 16 sheet pixels, and conversion between screen and sheet
  coordinates at scale 3.
- The min/abs normalisation of a drag selection.
- The editor state changed by input events: drag corners, the record list and the
  snapping switch.
- The mapping between `(name, x, y, w, h)` records and the JSON objects of the
  sidecar file.

Modules, one per component:
- `Grid`: cells and directions.
- `SnakeBody`: the snake.
- `SnakeSprites`: sprite choice.
- `Fruits`: fruit, question and the wrong-answer loop.
- `Game`: the main game object and the key rule.
- `Extractor`: the sprite extractor.
- `Text` and `Wrappers`: helpers.

Values the source draws with `random.randint` are parameters. Each is required
to lie in the range the source draws it from. The wrong-answer loop takes a
sequence of draws, one of which differs from the answer. The tick takes one
drawn cell per possible relocation.

Behaviour of the code a reader might not expect:
- Only the correct fruit is checked in `check_collision`. The bad fruit is never
  eaten and never moved away from the body.
- The no-reversal rule tests one component of the current direction, for example
  `direction.y != 1` for the up key. It does not compare whole vectors. For every
  direction the snake can actually hold, this is the same as refusing the exact
  reverse (`Game.SteerNoReversal`).
- `reset` does not clear the pending-growth flag.
- While the snake stands still, its new head lands on its own second cell, so every
  tick with zero direction ends in a reset (`Game.IdleTickFails`).
- The question is drawn once and never renewed.

## Model

| member | source | states |
|---|---|---|
| `SnakeBody.Advance` | game.py:82-98 | one step: the length grows by one exactly when a block is pending and is kept otherwise; the new head is the old head plus the direction; every other segment takes the cell of the segment that was in front of it |
| `SnakeBody.AdvanceWithoutGrowth` | game.py:92-98 | without growth the length is kept and `body[1:]` is the old body minus its last cell |
| `SnakeBody.AdvanceWithGrowth` | game.py:83-91 | with growth the length is one more and `body[1:]` is the whole old body |
| `SnakeBody.AdvanceConnected` | game.py:82-98 | a step in a unit direction keeps consecutive cells adjacent |
| `SnakeBody.Snake.constructor` | game.py:13-16 | the snake starts as `[(5,10),(4,10),(3,10)]`, standing still, with no pending block |
| `SnakeBody.Snake.MoveSnake` | game.py:82-98 | the body becomes the stepped body, the flag is cleared and the direction kept; the body keeps at least three cells |
| `SnakeBody.Snake.AddBlock` | game.py:100-101 | only the pending-growth flag changes, to true |
| `SnakeBody.Snake.Reset` | game.py:103-105 | the body is the three-cell start and the direction zero; the flag is untouched |
| `SnakeSprites.Orient` | game.py:67-79 | a unit neighbour offset picks the sprite pointing the opposite way; any other offset keeps the earlier choice |
| `SnakeSprites.OrientInjective` | game.py:67-79 | two different unit offsets never pick the same sprite |
| `SnakeSprites.OrientOnto` | game.py:67-79 | each of the four sprites is picked by the unit offset opposite to the way it points |
| `SnakeSprites.HeadSprite` | game.py:74-79 | the head sprite points from the neck to the head, or stays as before when they are not neighbours |
| `SnakeSprites.TailSprite` | game.py:67-72 | the tail sprite points from the second-to-last cell to the tail, or stays as before |
| `SnakeSprites.HeadFacesDirection` | game.py:74-79 | after a step in a unit direction the head sprite points in that direction |
| `SnakeSprites.SegmentSprite` | game.py:50-64 | vertical exactly when the two neighbour offsets share x; horizontal exactly when they differ in x and share y |
| `SnakeSprites.SegmentCorner` | game.py:56-64 | for two perpendicular unit offsets the sprite is the corner named by their diagonal sum (exactly one of the four) |
| `SnakeSprites.SegmentSymmetric` | game.py:50-64 | swapping the two neighbours does not change the sprite |
| `SnakeSprites.SegmentAt` | game.py:40-64 | in a connected body, every interior cell gets a sprite |
| `Fruits.Fruit.constructor` | game.py:108-111 | the fruit carries its value and ends at the cell drawn by `randomize` |
| `Fruits.Fruit.Randomize` | game.py:125-128 | the fruit moves to the drawn cell, which is on the board |
| `Fruits.Question.constructor` | game.py:131-132 | a new question holds the operands, the text "a + b = ?" and the answer `a + b`, which lies in [2, 20] |
| `Fruits.Question.NewQuestion` | game.py:134-138 | the answer is `a + b` and lies in [2, 20]; the text is "a + b = ?" |
| `Fruits.PickWrongAnswer` | game.py:158-160 | the result is the first draw that differs from the answer; it lies in [2, 20] and every earlier draw equals the answer |
| `Fruits.QuestionText` | game.py:137 | the text is the first operand's numeral, " + ", the second operand's numeral and " = ?", with the second numeral's length fixed; both operands read back from it |
| `Text.Decimal` | game.py:137 | `str(n)` is a non-empty string of digits with no leading zero |
| `Text.DecimalValue` | game.py:137 | the decimal numeral of a number reads back as that number |
| `Game.Steer` | game.py:262-280 | a key either keeps the direction or sets the key's unit vector |
| `Game.SteerNeverReverses` | game.py:262-280 | whatever the current direction, a key that changes it never sets its exact reverse |
| `Game.SteerNoReversal` | game.py:262-280 | for a still or unit direction, a key takes effect exactly when it does not ask for the reverse; otherwise the direction is kept |
| `Game.Sweep` | game.py:181-183 | the draws used are at most the number of cells visited; the fruit ends at its old cell if none was used, else at the last draw |
| `Game.SweepKeepsUncovered` | game.py:181-183 | a fruit under none of the cells stays where it is and uses no draw |
| `Game.SweepMovesCovered` | game.py:181-183 | a fruit lying under one of the cells is moved at least once |
| `Game.Collision` | game.py:176-183 | the fruit is eaten exactly when it is on the head, and then at least one draw is used; at most one draw per cell |
| `Game.CollisionResult` | game.py:176-183 | the correct fruit always ends on the board, at its old cell or at the last cell drawn, and a fruit anywhere on the body is moved |
| `Game.Fails` | game.py:185-191 | the failure condition holds exactly when the head is off the board or some later cell of the body is on it |
| `Game.IdleTickFails` | game.py:185-191 | a step with zero direction always meets the failure condition |
| `Game.ReverseTickFails` | game.py:189-191 | stepping back onto the neck meets the failure condition |
| `Game.MainGame.constructor` | game.py:153-161 | the game starts with the start snake and the question "a + b = ?"; the correct fruit carries `a + b`; the bad fruit carries the first drawn value that differs from `a + b`, in [2, 20]; both fruits are on the board |
| `Game.MainGame.Score` | game.py:205 | the score is never negative and counts the cells beyond the starting three |
| `Game.MainGame.OnKey` | game.py:262-280 | an arrow key changes only the direction, by the steering rule |
| `Game.MainGame.Update` | game.py:163-166 | one tick: the fruit and growth flag are as the collision rule gives for the moved body; the snake is reset when the moved body fails, and otherwise is the moved body |
| `Game.MainGame.CheckCollision` | game.py:176-183 | the fruit position and the draws used are as the collision rule gives; growth is scheduled when the head ate it; body and direction unchanged; the bad fruit is untouched |
| `Game.MainGame.CheckFail` | game.py:185-191 | the snake ends reset exactly when the head was off the board or on another body cell, and is untouched otherwise |
| `Game.MainGame.GameOver` | game.py:193-194 | the snake is reset |
| `Extractor.SnapToGrid` | sprite_extractor.py:86-90 | with snapping on, the result is a multiple of 16 with `result <= v < result + 16`; with it off, `v` itself |
| `Extractor.SnapIdempotent` | sprite_extractor.py:86-90 | snapping twice equals snapping once |
| `Extractor.ScreenToSheet` | sprite_extractor.py:92-96 | the sheet pixel is the floor of the screen position divided by 3 |
| `Extractor.SheetToScreen` | sprite_extractor.py:98-100 | the screen position is a multiple of 3 on both axes and lies over the given sheet pixel |
| `Extractor.CoordinatesRoundTrip` | sprite_extractor.py:92-100 | sheet to screen and back is the identity; screen to sheet and back lands at most 2 pixels above and left |
| `Extractor.Normalize` | sprite_extractor.py:219-222 | the rectangle starts at the minimum corner, has non-negative size, and its edges are the two given corners |
| `Extractor.NormalizeSymmetric` | sprite_extractor.py:173-176 | the rectangle is the same when the two corners are swapped |
| `Extractor.Selection` | sprite_extractor.py:217-222 | the selection in sheet pixels does not depend on which corner the drag started from |
| `Extractor.SpriteNameFormat` | sprite_extractor.py:224 | the name of position n is `sprite_` followed by the numeral of n padded to three digits (exactly ten characters below 1000), which reads back as n |
| `Text.DecimalShort` | sprite_extractor.py:224 | a number below 1000 has at most three digits, so the three-digit padding is exact |
| `Extractor.SpriteNameInjective` | sprite_extractor.py:224 | `sprite_` + the zero-padded number names distinct positions differently |
| `Text.PaddedDecimalValue` | sprite_extractor.py:224 | the zero-padded numeral reads back as the number |
| `Extractor.EnterSavesSelection` | sprite_extractor.py:217-229 | Enter acts only with both corners set; it appends exactly one record named after the old length, keeps earlier records as a prefix, and clears both corners |
| `Extractor.EnterRecordGeometry` | sprite_extractor.py:219-225 | the saved record holds the normalised selection, with non-negative size |
| `Extractor.DeleteDropsLast` | sprite_extractor.py:249-253 | D removes only the last record, keeping the rest as a prefix, and leaves an empty list empty |
| `Extractor.ToggleTwice` | sprite_extractor.py:235-238 | G flips the snapping switch, keeps the corners and the list and keeps the program running; pressing it twice restores the whole state |
| `Extractor.ClearNeedsConfirmation` | sprite_extractor.py:241-247 | C empties the list only when it is non-empty and the answer is yes; nothing else changes |
| `Extractor.MouseDownStartsSnapped` | sprite_extractor.py:255-260 | a press at or right of the sheet's width is ignored; otherwise only the start corner changes: it becomes the screen corner of the clicked sheet pixel, or with snapping on of the grid cell holding that pixel |
| `Extractor.DragUpdatesCurrent` | sprite_extractor.py:262-271 | release and motion do nothing before a drag starts; after it, release stores the raw position, and motion changes only the current corner, to the screen corner of the pointed sheet pixel or, with snapping on, of the grid cell holding it |
| `Extractor.Handle` | sprite_extractor.py:209-271 | an event stops the program exactly when it is a quit or Escape, and then nothing changes |
| `Extractor.HandleFrame` | sprite_extractor.py:216-253 | only Enter, D and C can change the list, and only G the snapping switch |
| `Extractor.HandleKeepsNamesIndexed` | sprite_extractor.py:207-273 | if each record is named after its position, every event keeps it so |
| `Extractor.HandleAllRunning` | sprite_extractor.py:207-215 | a batch of events keeps the program running exactly when none of them is a quit or Escape |
| `Extractor.HandleAll` | sprite_extractor.py:209-215 | the snapping switch ends up changed only when the frame contains a G press |
| `Extractor.HandleAllKeepsNamesIndexed` | sprite_extractor.py:209-273 | if each record is named after its position, a whole frame of events keeps it so |
| `Extractor.ToJson` | sprite_extractor.py:116-117 | a record is written as an object with exactly the keys name, x, y, w, h |
| `Extractor.JsonRecordRoundTrip` | sprite_extractor.py:108-117 | reading a written object gives the record back; writing a read record gives the object without its extra keys |
| `Extractor.ToJsonList` | sprite_extractor.py:116-117 | one object per record, each with exactly the five keys |
| `Extractor.FromJson` | sprite_extractor.py:108-109 | a record is read exactly from an object holding all five keys with values of the right kind, whatever other keys it has, and its fields are those keys' values |
| `Extractor.FromJsonList` | sprite_extractor.py:108-109 | the load succeeds exactly when every object reads as a record, and the i-th record is the one read from the i-th object |
| `Extractor.SaveLoadRoundTrip` | sprite_extractor.py:108-117 | the saved list loads back as the same list |
| `Extractor.SpriteExtractor.constructor` | sprite_extractor.py:71-80 | no drag is in progress and snapping is on; the list is the sidecar file's records, or empty when there is none |
| `Extractor.SpriteExtractor.LoadSpriteData` | sprite_extractor.py:102-112 | the list becomes the file's records; on any failure it is kept |
| `Extractor.SpriteExtractor.SaveSpriteData` | sprite_extractor.py:114-120 | the written array has one five-key object per record and loads back as the current list |
| `Extractor.SpriteExtractor.HandleEvent` | sprite_extractor.py:207-273 | the new state and the running flag are those of the event rule |
| `Extractor.SpriteExtractor.HandleEvents` | sprite_extractor.py:207-273 | the queued events are applied in order and processing stops at the first quit |

## Left out

- Drawing is not modelled: the grass, fruit, question and score layout in `game.py`, and the sheet, grid, selection box and UI text in `sprite_extractor.py`. Fonts, image loading and scaling are left out too. These are calls into pygame and keep no state the logic depends on. Only the sprite *choice* is modelled.
- The game's event loop is not modelled: the 150 ms timer, the clock, the pause flag, and quitting on the window close or Escape. These are framework plumbing. Ticks (`MainGame.Update`) and arrow keys (`MainGame.OnKey`) are modelled as operations.
- File and OS access is not modelled: reading and writing the JSON file, `os.path`, `makedirs`, and loading the sprite sheet. The file's content is a parameter of the extractor's constructor, and `SaveSpriteData` returns the array it would write.
- PNG export in `extract_sprite` is left out. This includes its guard against empty rectangles, which only decides whether a file is written.
- Console messages are left out.
- The extractor's run loop and the final save on exit are left out.
- Random number generation is not modelled. Every `random.randint` result is a parameter restricted to its range.
- The fruit's `x` and `y` attributes are not modelled separately. They always equal `pos`.
- `Vector2` holds floats. Only small whole numbers ever occur, so integers are used.
- The confirmation prompt of the C key is modelled as the answer string carried by the event. `answer.lower() == 'y'` is taken as `answer` being "y" or "Y".
- The module-level `SNAP_TO_GRID` switch is modelled as a field of the extractor object. The program has only one extractor.
- Extractor.FromJson: a value of the wrong JSON kind makes the load fail, as a missing key does. Python would store such a value in the tuple.
- Game.MainGame.Update: it requires more drawn cells than the body has cells before the move. This is the most one tick can use. The source draws them on demand.
