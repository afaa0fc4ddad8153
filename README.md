# HungrySnake in Dafny

This project models the two pieces of logic at the heart of HungrySnake, a
grid Snake game played by a tabular Q-learning agent.

- `snake.dfy` (module `SnakeGame`) is the game environment, class `Snake`.
  - Its state:
    - a 20 × 20 occupancy board of markers (0 empty, 1 snake, 2 food);
    - a snake of a single cell;
    - a heading and its unit step;
    - a food cell, a score and a game-over flag.
  - The class keeps the board as a row-major `array<int>` and the rest in fields.
  - Each method is proved against a pure function of the state (`World`):
    - `take_action` against `Step`;
    - `reset` against `ResetState`;
    - the constructor against `InitialState`;
    - `get_state` against `Observation`.
- `snake_properties.dfy` (module `SnakeProperties`) proves facts about those functions:
  - the coordinate conversions and food placement;
  - what one move changes, and runs of moves;
  - reset;
  - the two defects listed under Findings, with their corrections.
- `agent.dfy` (module `QLearning`) is the agent, class `SnakeAI`.
  - It holds a table from (observation, action) to a value, where a missing pair reads as 0.
  - An update moves the pair towards `reward + future`, where `future` is the best value of the next observation.
  - The greedy choice breaks ties towards the earliest action.
  - The reward block of the training loop is a method that issues its updates in order.
  - Values are exact reals.
- `agent_properties.dfy` (module `AgentProperties`) proves facts about the table updates, the greedy choice and the reward schedule.
- `wrappers.dfy` holds the `Option` type.

**Random draws are inputs.**
- `generate_food` gets a sequence of `Draw`s. Each is one pair of `randrange(0, 570)` results, the column's first.
- `take_action()` without an index gets the heading the random choice would pick.
- `choose_action` gets the `random.random()` value and the index `random.choice` would pick.
- `generate_food` retries without a bound. The model tries the given draws in order, and the outcome `OutOfDraws` stands for the case where none is free.

**Python conventions, modelled exactly.**
- `int(x / 30)` truncates toward zero (`TruncDiv`).
- `round` sends halves to the even neighbour (`RoundToCell`).
- An action index from -4 to -1 counts from the end of the heading list.
- Any other index outside 0..3 raises `IndexError` before anything changes (outcome `BadIndex`).

**Where the code and the design disagree, the model follows the code.**
- The design says `reset` clears the grid. The code does not touch the board (snake.py:173-181), so `ResetState` leaves it as it is.
- The design says nothing changes after game over. The code keeps moving the snake, and only the flag is monotone (`StepGameOver`).
- The design says food is placed uniformly. The code rounds `randrange(0, 570) / 30` half to even, so of the 570 values of one draw, row or column 0 gets 16, 19 gets 14, the other even ones 31 each and the other odd ones 29 each. `RoundToCell` models that rounding, and `EveryCellDrawable` shows that every cell can still be drawn.

## Model

| member | source | states |
|---|---|---|
| SnakeGame.AvailableActions | snake.py:45-46 | four actions, action i being the index i of the heading list |
| SnakeGame.TruncDiv | snake.py:66-68 | `int(n / 30)` rounds toward zero: below n for n ≥ 0, above it for n < 0, within one cell |
| SnakeGame.IsUnsafe | snake.py:78-87 | 0 or 1, and 1 exactly for an on-board cell holding the snake marker; every off-board cell is 0 |
| SnakeGame.Cell | snake.py:86-87 | an on-board (row, column) has a position inside the board |
| SnakeGame.RoundToCell | snake.py:90-91 | the nearest multiple of the food size, a tie going to the even one (Python `round`) |
| SnakeGame.DrawCell | snake.py:90-91 | every in-range draw lands on a valid board cell |
| SnakeGame.GenerateFood | snake.py:89-96 | a found cell is on the board and does not hold the snake marker |
| SnakeGame.Resolve | snake.py:111-114 | the default gives the random pick; an index fails exactly outside -4..3, and otherwise names the heading at that index modulo 4 |
| SnakeGame.Delta | snake.py:118-133 | a unit step; row unchanged exactly for left and right; +1 exactly for right and down |
| SnakeGame.CoordsToIndex | snake.py:66-70 | (column, row) of the cell holding the pixel for on-screen pixels; truncation toward zero for negative ones |
| SnakeGame.IndexToCoords | snake.py:72-76 | the pixels are multiples of the cell size, and on screen exactly for a valid cell; `CoordsRoundTrip` is the round trip |
| SnakeGame.ValidIndex | snake.py:86-87 | row and column within the board; `PastEdgeIsOffBoard` and `CellInjective` state its use |
| SnakeGame.PastEdge | snake.py:135 | the screen test of the move; `PastEdgeIsOffBoard` proves it is the negation of `ValidIndex` |
| SnakeGame.Blocked | snake.py:93 | the drawn cell holds the snake marker; `GenerateFoodFirstFree` and `TidyBlocked` state what it decides |
| SnakeGame.Move | snake.py:118-148 | the heading change, edge check, clear, step and mark keep the board of 0/1/2 markers and the food in bounds |
| SnakeGame.Turn | snake.py:118-133 | the if-chain of `take_action` keeps the state well formed |
| SnakeGame.Shift | snake.py:135-148 | the edge check, clear, step and mark keep the state well formed |
| SnakeGame.Eat | snake.py:168-171 | eating keeps the state well formed |
| SnakeGame.Step | snake.py:109-171 | `take_action` keeps the markers 0/1/2, the food on the board and the score ≥ 0 |
| SnakeGame.ResetState | snake.py:173-181 | `reset` keeps the state well formed |
| SnakeGame.EmptyBoard | snake.py:23 | a board of Rows × Cols zeros |
| SnakeGame.InitialState | snake.py:13-38 | the constructor's state is well formed |
| SnakeGame.Observation | snake.py:48-64 | 12 entries, each 0 or 1; exactly one of entries 0..3 is set, the one of the heading; entries 4 and 5 never both, nor 6 and 7 |
| SnakeGame.Snake.constructor | snake.py:13-38 | the fields and the board are those of `InitialState` for the given draw |
| SnakeGame.Snake.GetState | snake.py:48-64 | the list built by the twelve appends is the observation of the current state |
| SnakeGame.Snake.TakeAction | snake.py:109-171 | the new fields and board, and the outcome, are those of `Step` on the old state |
| SnakeGame.Snake.Advance | snake.py:118-148 | turning then stepping gives `Move` of the old state |
| SnakeGame.Snake.TurnTo | snake.py:118-133 | the if-chain sets the heading and its unit step (`Turn`) |
| SnakeGame.Snake.StepAhead | snake.py:135-148 | the edge check, clear, step and mark of the board array (`Shift`) |
| SnakeGame.Snake.EatFood | snake.py:168-171 | the eating block gives `Eat` of the old state |
| SnakeGame.Snake.Reset | snake.py:173-181 | the new fields are those of `ResetState`; the board array is not modified |
| SnakeProperties.CoordsRoundTrip | snake.py:66-76 | `coords_to_index(*index_to_coords(r, c)) == (c, r)` for every r, c, the order swapped |
| SnakeProperties.CoordsSnapToCell | snake.py:66-76 | on-screen pixels go to the top-left corner of their cell and back |
| SnakeProperties.PastEdgeIsOffBoard | snake.py:135 | the out-of-screen test is exactly `not valid_index(r, c)` |
| SnakeProperties.CellInjective | snake.py:86-87 | distinct on-board cells have distinct board positions |
| SnakeProperties.EveryCellDrawable | snake.py:90-91 | every board cell is the landing cell of some in-range draw |
| SnakeProperties.GenerateFoodFirstFree | snake.py:89-96 | no cell found exactly when every attempt is blocked; otherwise the cell of the first unblocked attempt |
| SnakeProperties.StepHeadingAndMove | snake.py:114-142 | action a in 0..3 sets the heading `['right','left','up','down'][a]` and moves exactly one cell that way |
| SnakeProperties.StepBadIndex | snake.py:114 | an index outside -4..3 fails, and only such an index; the state is then unchanged |
| SnakeProperties.StepGameOver | snake.py:135-136 | after a move the flag is set exactly when it was, or the pre-move cell is off the board; it is never cleared |
| SnakeProperties.StepBoardFrame | snake.py:138-171 | only the cell left (now 0), the cell entered (now 1) and, on eating, the new food cell (now 0) change |
| SnakeProperties.MoveFrame | snake.py:138-148 | the first part of a move changes only the cell left (now 0) and the cell entered (now 1) |
| SnakeProperties.EatFrame | snake.py:168-171 | eating changes only the new food cell, which held no snake marker and is now 0; position and flag stay |
| SnakeProperties.StepScore | snake.py:168-171 | the score rises by exactly 1 when the snake reaches the food and new food is found, else stays |
| SnakeProperties.StepLeavesFoodOffSnake | snake.py:147-171 | after a completed move the food is not on the snake's cell |
| SnakeProperties.InitialStateTidy | snake.py:29-31 | at the start, the snake marker is on the snake's cell and nowhere else |
| SnakeProperties.StepPreservesTidy | snake.py:138-171 | a move keeps the snake marker on the snake's cell only |
| SnakeProperties.MovePreservesTidy | snake.py:138-148 | the first part of a move keeps the snake marker on the snake's cell only |
| SnakeProperties.TidyBlocked | snake.py:93 | on such a board a draw is redrawn exactly when it lands on the snake |
| SnakeProperties.TidyNeighboursSafe | snake.py:59-62 | with one marked cell, the four obstacle entries of `get_state` are always 0 |
| SnakeProperties.NeighbourSafe | snake.py:78-84 | a cell other than the snake's is never unsafe on such a board |
| SnakeProperties.Repeat | snake.py:109-171 | repeated moves keep the state well formed |
| SnakeProperties.RepeatRight | snake.py:122-142 | n moves right advance the column by n; the game is over once a pre-move column was past the edge |
| SnakeProperties.RightFromStartEndsOnEleventh | snake.py:135-136 | from (10, 10), ten moves right leave the flag false and the eleventh sets it |
| SnakeProperties.InitialStateStartsAtCentre | snake.py:25-38 | the start is (10, 10) heading right, score 0, not over |
| SnakeProperties.RepeatLast | snake.py:109-171 | the (n+1)-th repeated move follows the n-th |
| SnakeProperties.RepeatRightBeforeFood | snake.py:122-168 | moving right short of the food keeps score, food and the single marker |
| SnakeProperties.FiveRightsEatFood | snake.py:89-171 | from (10, 10) with food at (10, 15) and some draw off (10, 15), five moves right end at (10, 15) and score 1, the flag unchanged; the food lands on the first draw off (10, 15), every earlier one landing on the snake and drawn again |
| SnakeProperties.FiveRightsFirstDraw | snake.py:89-171 | when the first draw misses (10, 15), the five moves score 1 and the food lands on that draw |
| SnakeProperties.ResetStateEffect | snake.py:173-181 | score 0, heading right, (10, 10), start pixels, board untouched; food found exactly when some draw is free, then (0, 1) and not over |
| SnakeProperties.InitialFoodMayCoverSnake | snake.py:29-31 | the draw (300, 300) puts the initial food on the snake's cell |
| SnakeProperties.ResetMayStrandMarker | snake.py:173-181 | reset from a mid-game state (`MidGame`: the snake marked at (3, 3) only, score 200) leaves a stray snake marker at (3, 3), and the draw (300, 300) puts the food on the snake |
| SnakeProperties.StartBoard | snake.py:23-31 | the start board has the snake marker on (10, 10) only |
| SnakeProperties.InitialStateCorrected | snake.py:29-31 | marking the snake first: food off the snake, one marker, at (10, 10); fails only when every draw hits the snake |
| SnakeProperties.ResetStateCorrected | snake.py:173-181 | reset done right succeeds exactly when some draw misses the start cell; then score 0, heading right, start pixels, (10, 10), step (0, 1), not over, the snake marker on (10, 10) only, the food marker on the food cell, away from the snake, and every other cell empty; on failure nothing changes |
| SnakeProperties.CorrectedStartStaysTidy | snake.py:109-171 | from the corrected start a move keeps one marker and the food off the snake |
| QLearning.MaxQ | ai.py:25-31 | the running maximum: none for no actions, otherwise at least every action's value and equal to one of them |
| QLearning.FutureValue | ai.py:25-31 | at least the value of each of the four actions and equal to one of them |
| QLearning.FirstBest | ai.py:44-48 | the position of the running maximum, every earlier action strictly smaller |
| QLearning.Greedy | ai.py:44-48 | an action in 0..3 of greatest value, every earlier action strictly smaller |
| QLearning.Q | ai.py:16-20 | the entry of a present pair, 0 for a missing one, as `QReadsEntryOrZero` states |
| QLearning.Updated | ai.py:33-36 | one pair rewritten from values read before the write; `UpdatedWritesOneKey`, `UpdateFromEmpty` and `UpdatedMovesTowardTarget` state its effect |
| QLearning.FoodBitOf | ai.py:83-85 | the `dict_dir` entry; `FoodBitMatchesHeading` states that it is 1 exactly when the food lies ahead |
| QLearning.StepRewards | ai.py:79-91 | the rewards of one training step in order; `StepRewardsShape` states their order, count and conditions |
| QLearning.ApplyRewards | ai.py:79-91 | the updates issued one after another; `ApplyOneMore` unfolds it and `ApplyRewardsWritesOneKey` bounds what it touches |
| QLearning.DirectionIndex | ai.py:82 | the index of a heading in the directions dictionary names that heading in the action list |
| QLearning.SnakeAI.constructor | ai.py:9-13 | rate 0.5, epsilon 0 and an empty table |
| QLearning.SnakeAI.GetQValue | ai.py:16-20 | the entry of (state, action) when present, 0 otherwise |
| QLearning.SnakeAI.UpdateQValue | ai.py:22-23 | only the entry (state, action) is written, with `old + alpha * (reward + future - old)` |
| QLearning.SnakeAI.FutureRewards | ai.py:25-31 | the loop's result is the future value, at least the value of every action |
| QLearning.SnakeAI.Update | ai.py:33-36 | the table becomes `Updated` of the old table, old and future values read before the write |
| QLearning.SnakeAI.ChooseAction | ai.py:38-48 | the random pick when exploring and the draw falls below epsilon, otherwise the greedy action; with epsilon 0 always greedy |
| QLearning.SnakeAI.Learn | ai.py:79-91 | the table after the step's updates, in order, with the rewards of `StepRewards` |
| QLearning.ApplyOneMore | ai.py:79-91 | one more reward is one more update after the ones before |
| AgentProperties.QReadsEntryOrZero | ai.py:16-20 | the value of a present pair is its entry, of a missing pair 0 |
| AgentProperties.FutureOfUnseenState | ai.py:25-31 | the future value of an observation with no entry is 0 |
| AgentProperties.FutureIsGreedyValue | ai.py:25-48 | the future value is the value of the greedy action |
| AgentProperties.GreedyIsFirstMaximum | ai.py:44-48 | every action of greatest value is at or after the greedy one |
| AgentProperties.GreedyOnEmptyTable | ai.py:12-48 | on an empty table the greedy action is 0 |
| AgentProperties.UpdatedWritesOneKey | ai.py:22-36 | an update writes only (state, action), removes no key, grows the key set by at most one |
| AgentProperties.UpdateFromEmpty | ai.py:11-36 | from an empty table one update leaves `Q(s, a) == 0.5 * r` |
| AgentProperties.UpdatedMovesTowardTarget | ai.py:11-23 | at rate 0.5 the new value is the midpoint of the old value and the target, so lies between them |
| AgentProperties.ApplyRewardsWritesOneKey | ai.py:79-91 | a step's updates touch only the key (state, action) |
| AgentProperties.StepRewardsShape | ai.py:79-91 | one to three rewards: +1 first iff the score rose, -10 last iff game over, between them +0.05 iff the heading's food entry is set, else -0.1 |
| AgentProperties.FoodBitMatchesHeading | ai.py:82-85 | the food entry the reward reads is 1 exactly when the food lies strictly ahead along the heading |
| AgentProperties.FreshAgentIsGreedy | ai.py:9-48 | a fresh agent values every observation at 0 and chooses action 0 |

## Left out

- Rendering is not modelled, since it is output only and none of it feeds back into the state:
  - `Color` and the pygame set-up (snake.py:36, 40-43);
  - `draw_snake` and `print_score`;
  - the drawing block inside `take_action` (snake.py:144-166).
- `scale`, `padding` and the screen size are not modelled; the scale is fixed at 1.
- `last_dir` (snake.py:116) is not modelled: it is written and never read.
- The drivers `main`, `play` and `evaluate` are not modelled. This covers the event loop, the pacing, printing, the score cap, averaging and the command line. Only the reward block (ai.py:79-91) is modelled, as `Learn`.
- Saving and loading the table with `pickle` is file I/O, and is not modelled.
- The `env` field of `SnakeAI` is not modelled. The agent's methods use it only for `available_actions`, a constant list. `Learn` takes the environment's heading, scores and flag as parameters.
- The random sources are parameters, as described above. `generate_food` is not modelled as an unbounded retry: it tries the draws it is given, and Python's recursion limit is not modelled.
- An action that is neither an integer nor the default is a `TypeError` in Python, and is not modelled.
- The numpy board holds floats; the model stores the same markers as integers.
- Q-values are exact reals: float rounding is not modelled. The `-inf` start of the running maximum becomes `None`.
- `get_q_value` scans the dictionary in insertion order, while the model scans the key set in an arbitrary order. Keys are unique, so the result is the same.
- QLearning.SnakeAI.ChooseAction: `best_action` starts at 0 instead of unbound. All values are finite, so the first comparison always succeeds.
- QLearning.SnakeAI.alpha is a constant 0.5 given at its declaration, not assigned in the constructor; the source never changes it.
- AgentProperties.UpdatedMovesTowardTarget: stated for the agent's rate 0.5 only, not for every rate between 0 and 1.

## Findings

| source | as written | input that shows it | evidently intended | confidence | as-written member | corrected member |
|---|---|---|---|---|---|---|
| snake.py:29-31 | the constructor draws the food on the empty board before it marks the snake's cell, so the retry at snake.py:93 cannot steer the food away from the snake | both `randrange` calls give 300; `round(300 / 30)` is 10, so the food is at (10, 10), the snake's start | mark the snake's cell first, then draw the food | medium, not executed | SnakeProperties.InitialFoodMayCoverSnake | SnakeProperties.InitialStateCorrected |
| snake.py:173-181 | `reset` neither clears the board nor marks the new start cell, so the old snake marker stays and the food can be drawn onto the snake | reset with the snake on the board at (3, 3) (the score-200 cap at ai.py:98-101 resets a live snake), then the draw (300, 300) | clear the board, mark the start cell, then draw the food | medium, not executed | SnakeProperties.ResetMayStrandMarker | SnakeProperties.ResetStateCorrected |

The class `Snake` follows the code as written. The corrected start and reset
are the pure functions `InitialStateCorrected` and `ResetStateCorrected`.
`CorrectedStartStaysTidy` carries the per-move lemmas (`StepPreservesTidy`,
`StepLeavesFoodOffSnake`) over to them.
