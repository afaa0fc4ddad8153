/**
 * Properties of the grid-snake model: the coordinate conversions, food
 * placement, one move, a run of moves, reset, and the corrected start and
 * reset states that keep the food off the snake.
 */
module SnakeProperties {
  import opened Wrappers
  import opened SnakeGame

  // ---------------------------------------------------------------------
  // Coordinates and the board

  /** Converting a cell to pixels and back gives the cell again, as (column, row). */
  lemma CoordsRoundTrip(r: int, c: int)
    ensures CoordsToIndex(IndexToCoords(r, c).0, IndexToCoords(r, c).1) == (c, r)
  {
  }

  /** Converting on-screen pixels to a cell and back snaps them to the cell's top-left corner. */
  lemma CoordsSnapToCell(x: int, y: int)
    requires x >= 0 && y >= 0
    ensures var (c, r) := CoordsToIndex(x, y);
            IndexToCoords(r, c) == (x - x % SnakeSize, y - y % SnakeSize)
  {
  }

  /** The out-of-screen test of take_action is exactly "not a valid index". */
  lemma PastEdgeIsOffBoard(r: int, c: int)
    ensures PastEdge(r, c) <==> !ValidIndex(r, c)
  {
  }

  /** Two on-board cells share a board position only if they are the same cell. */
  lemma CellInjective(r1: int, c1: int, r2: int, c2: int)
    requires ValidIndex(r1, c1) && ValidIndex(r2, c2)
    ensures Cell(r1, c1) == Cell(r2, c2) <==> r1 == r2 && c1 == c2
  {
  }

  /** Every cell of the board can be reached by one attempt of generate_food. */
  lemma EveryCellDrawable(r: int, c: int)
    requires ValidIndex(r, c)
    ensures exists d :: DrawInRange(d) && DrawCell(d) == (r, c)
  {
    var d := Draw(if c == Cols - 1 then 560 else c * FoodSize,
                  if r == Rows - 1 then 560 else r * FoodSize);
    assert DrawCell(d) == (r, c);
  }

  // ---------------------------------------------------------------------
  // Food placement

  /**
   * generate_food keeps drawing while the drawn cell holds the snake
   * marker: it fails exactly when every attempt is blocked, and otherwise
   * it lands on the cell of the first attempt that is not.
   */
  lemma {:induction false} GenerateFoodFirstFree(board: seq<int>, draws: seq<Draw>)
    requires |board| == Rows * Cols && AllInRange(draws)
    ensures GenerateFood(board, draws).None? <==>
            forall i :: 0 <= i < |draws| ==> Blocked(board, draws[i])
    ensures GenerateFood(board, draws).Some? ==>
            exists k :: 0 <= k < |draws| && !Blocked(board, draws[k]) &&
                        (forall j :: 0 <= j < k ==> Blocked(board, draws[j])) &&
                        GenerateFood(board, draws).value == DrawCell(draws[k])
    decreases |draws|
  {
    if draws != [] && Blocked(board, draws[0]) {
      var rest := draws[1..];
      GenerateFoodFirstFree(board, rest);
      assert forall i :: 1 <= i < |draws| ==> draws[i] == rest[i - 1];
      if GenerateFood(board, rest).Some? {
        var k :| 0 <= k < |rest| && !Blocked(board, rest[k]) &&
                 (forall j :: 0 <= j < k ==> Blocked(board, rest[j])) &&
                 GenerateFood(board, rest).value == DrawCell(rest[k]);
        assert draws[k + 1] == rest[k];
        assert forall j :: 0 <= j < k + 1 ==> Blocked(board, draws[j]) by {
          forall j | 0 <= j < k + 1
            ensures Blocked(board, draws[j])
          {
            if j > 0 {
              assert draws[j] == rest[j - 1];
            }
          }
        }
      }
    }
  }

  // ---------------------------------------------------------------------
  // One call of take_action

  /** Action a in 0..3 turns the snake to the a-th heading and moves it one cell that way. */
  lemma StepHeadingAndMove(w: World, a: int, draws: seq<Draw>)
    requires WorldValid(w) && AllInRange(draws) && 0 <= a < |Headings|
    ensures var (w', outcome) := Step(w, Index(a), draws);
            outcome != BadIndex && w'.dir == Headings[a] &&
            (w'.rChange, w'.cChange) == Delta(Headings[a]) &&
            w'.r == w.r + w'.rChange && w'.c == w.c + w'.cChange &&
            (w'.r - w.r) * (w'.r - w.r) + (w'.c - w.c) * (w'.c - w.c) == 1
  {
  }

  /** An index outside -4..3 is an IndexError: nothing changes. */
  lemma StepBadIndex(w: World, i: int, draws: seq<Draw>)
    requires WorldValid(w) && AllInRange(draws)
    ensures Step(w, Index(i), draws).1 == BadIndex <==> !(-|Headings| <= i < |Headings|)
    ensures Step(w, Index(i), draws).1 == BadIndex ==> Step(w, Index(i), draws).0 == w
  {
  }

  /**
   * The game-over flag after a move is raised exactly when it was already
   * raised or the position before the move is off the board; it is never
   * lowered.
   */
  lemma StepGameOver(w: World, action: Action, draws: seq<Draw>)
    requires WorldValid(w) && AllInRange(draws)
    ensures var (w', outcome) := Step(w, action, draws);
            (outcome != BadIndex ==> (w'.gameOver <==> w.gameOver || !ValidIndex(w.r, w.c))) &&
            (w.gameOver ==> w'.gameOver)
  {
  }

  /**
   * A move changes at most three board cells: the cell left (which ends
   * empty), the cell entered (which ends holding the snake marker) and, on
   * eating, the new food cell (which ends empty).
   */
  lemma StepBoardFrame(w: World, action: Action, draws: seq<Draw>)
    requires WorldValid(w) && AllInRange(draws)
    ensures var (w', outcome) := Step(w, action, draws);
            outcome != BadIndex ==>
              (forall i :: 0 <= i < |w.board| &&
                 (ValidIndex(w.r, w.c) ==> i != Cell(w.r, w.c)) &&
                 (ValidIndex(w'.r, w'.c) ==> i != Cell(w'.r, w'.c)) &&
                 (w'.score != w.score ==> i != Cell(w'.foodR, w'.foodC))
                 ==> w'.board[i] == w.board[i]) &&
              (ValidIndex(w.r, w.c) ==> w'.board[Cell(w.r, w.c)] == EmptyMark) &&
              (ValidIndex(w'.r, w'.c) ==> w'.board[Cell(w'.r, w'.c)] == SnakeMark) &&
              (w'.score != w.score ==> w'.board[Cell(w'.foodR, w'.foodC)] == EmptyMark)
  {
    match Resolve(action)
    case None =>
    case Some(d) =>
      var m := Move(w, d);
      MoveFrame(w, d);
      EatFrame(m, draws);
  }

  /** The first part of a move changes only the cell left and the cell entered. */
  lemma MoveFrame(w: World, d: Dir)
    requires WorldValid(w)
    ensures var m := Move(w, d);
            (forall i :: 0 <= i < |w.board| &&
               (ValidIndex(w.r, w.c) ==> i != Cell(w.r, w.c)) &&
               (ValidIndex(m.r, m.c) ==> i != Cell(m.r, m.c))
               ==> m.board[i] == w.board[i]) &&
            (ValidIndex(w.r, w.c) ==> m.board[Cell(w.r, w.c)] == EmptyMark) &&
            (ValidIndex(m.r, m.c) ==> m.board[Cell(m.r, m.c)] == SnakeMark)
  {
    var m := Move(w, d);
    if ValidIndex(w.r, w.c) && ValidIndex(m.r, m.c) {
      CellInjective(w.r, w.c, m.r, m.c);
    }
  }

  /** Eating changes only the new food cell, which ends empty and is not the snake's marked cell. */
  lemma EatFrame(m: World, draws: seq<Draw>)
    requires WorldValid(m) && AllInRange(draws)
    ensures var (e, placed) := Eat(m, draws);
            (e.r, e.c, e.gameOver) == (m.r, m.c, m.gameOver) &&
            (forall i :: 0 <= i < |m.board| &&
               (e.score != m.score ==> i != Cell(e.foodR, e.foodC))
               ==> e.board[i] == m.board[i]) &&
            (e.score != m.score ==> e.board[Cell(e.foodR, e.foodC)] == EmptyMark &&
                                    m.board[Cell(e.foodR, e.foodC)] != SnakeMark)
  {
  }

  /**
   * The score rises by exactly one when the snake steps onto the food and a
   * new food cell is found, and is unchanged otherwise.
   */
  lemma StepScore(w: World, action: Action, draws: seq<Draw>)
    requires WorldValid(w) && AllInRange(draws)
    ensures var (w', outcome) := Step(w, action, draws);
            (w'.score == w.score + 1 <==> outcome == Moved && w'.r == w.foodR && w'.c == w.foodC) &&
            (w'.score == w.score || w'.score == w.score + 1)
  {
  }

  /**
   * After a successful move the snake is never on the food: on eating,
   * the new food cell is a cell without the snake marker, and the snake's
   * cell has it.
   */
  lemma StepLeavesFoodOffSnake(w: World, action: Action, draws: seq<Draw>)
    requires WorldValid(w) && AllInRange(draws)
    ensures var (w', outcome) := Step(w, action, draws);
            outcome == Moved ==> (w'.r, w'.c) != (w'.foodR, w'.foodC)
    ensures var (w', outcome) := Step(w, action, draws);
            w'.score != w.score ==> w'.board[Cell(w'.foodR, w'.foodC)] != SnakeMark
  {
    match Resolve(action)
    case None =>
    case Some(d) =>
      var m := Move(w, d);
      if m.r == m.foodR && m.c == m.foodC {
        var food := GenerateFood(m.board, draws);
        if food.Some? {
          assert m.board[Cell(m.r, m.c)] == SnakeMark;
        }
      }
  }

  // ---------------------------------------------------------------------
  // The single snake marker

  /** The board holds the snake marker on the snake's cell, when it is on the board, and nowhere else. */
  predicate Tidy(w: World)
    requires |w.board| == Rows * Cols
  {
    forall i :: 0 <= i < |w.board| ==>
      (w.board[i] == SnakeMark <==> ValidIndex(w.r, w.c) && i == Cell(w.r, w.c))
  }

  /** The start state of the constructor has the snake marker on the snake's cell only. */
  lemma InitialStateTidy(draw: Draw)
    requires DrawInRange(draw)
    ensures Tidy(InitialState(draw))
  {
  }

  /** A move keeps the snake marker on the snake's cell only. */
  lemma StepPreservesTidy(w: World, action: Action, draws: seq<Draw>)
    requires WorldValid(w) && AllInRange(draws) && Tidy(w)
    ensures Tidy(Step(w, action, draws).0)
  {
    match Resolve(action)
    case None =>
    case Some(d) =>
      var m := Move(w, d);
      MovePreservesTidy(w, d);
      var (e, placed) := Eat(m, draws);
      if e.score != m.score {
        var food := GenerateFood(m.board, draws);
        assert m.board[Cell(food.value.0, food.value.1)] != SnakeMark;
      }
  }

  /** The first part of a move keeps the snake marker on the snake's cell only. */
  lemma MovePreservesTidy(w: World, d: Dir)
    requires WorldValid(w) && Tidy(w)
    ensures Tidy(Move(w, d))
  {
    var m := Move(w, d);
    forall i | 0 <= i < |m.board|
      ensures m.board[i] == SnakeMark <==> ValidIndex(m.r, m.c) && i == Cell(m.r, m.c)
    {
      if ValidIndex(m.r, m.c) && i == Cell(m.r, m.c) {
      } else if ValidIndex(w.r, w.c) && i == Cell(w.r, w.c) {
      } else {
        assert m.board[i] == w.board[i];
      }
    }
  }

  /** On a tidy board, an attempt is blocked exactly when it lands on the snake's cell. */
  lemma TidyBlocked(w: World, d: Draw)
    requires WorldValid(w) && Tidy(w) && DrawInRange(d)
    ensures Blocked(w.board, d) <==> DrawCell(d) == (w.r, w.c)
  {
    var cell := DrawCell(d);
    if Blocked(w.board, d) {
      CellInjective(cell.0, cell.1, w.r, w.c);
    }
  }

  /**
   * With a single marked cell, the four obstacle entries of get_state are
   * always 0: no neighbour of the snake holds the snake marker.
   */
  lemma TidyNeighboursSafe(w: World)
    requires WorldValid(w) && Tidy(w)
    ensures Observation(w)[8..] == [0, 0, 0, 0]
  {
    NeighbourSafe(w, w.r, w.c - 1);
    NeighbourSafe(w, w.r, w.c + 1);
    NeighbourSafe(w, w.r - 1, w.c);
    NeighbourSafe(w, w.r + 1, w.c);
  }

  lemma NeighbourSafe(w: World, r: int, c: int)
    requires WorldValid(w) && Tidy(w) && (r, c) != (w.r, w.c)
    ensures IsUnsafe(w.board, r, c) == 0
  {
    if ValidIndex(r, c) && ValidIndex(w.r, w.c) {
      CellInjective(r, c, w.r, w.c);
    }
  }

  // ---------------------------------------------------------------------
  // Repeated moves

  /** n calls of take_action with the same action and the same supply of draws. */
  function Repeat(w: World, action: Action, draws: seq<Draw>, n: nat): (v: World)
    requires WorldValid(w) && AllInRange(draws)
    ensures WorldValid(v)
    decreases n
  {
    if n == 0 then w else Repeat(Step(w, action, draws).0, action, draws, n - 1)
  }

  /**
   * Moving right n times from an on-screen row advances the column by n;
   * the game is over once a position before some move was past the right
   * edge.
   */
  lemma {:induction false} RepeatRight(w: World, draws: seq<Draw>, n: nat)
    requires WorldValid(w) && AllInRange(draws) && 0 <= w.r < Rows && 0 <= w.c
    ensures var v := Repeat(w, Index(0), draws, n);
            v.r == w.r && v.c == w.c + n &&
            (v.gameOver <==> w.gameOver || (n > 0 && w.c + n - 1 >= Cols))
    decreases n
  {
    if n > 0 {
      var w1 := Step(w, Index(0), draws).0;
      StepHeadingAndMove(w, 0, draws);
      StepGameOver(w, Index(0), draws);
      assert w1.r == w.r && w1.c == w.c + 1;
      assert w1.gameOver <==> w.gameOver || w.c >= Cols;
      RepeatRight(w1, draws, n - 1);
    }
  }

  /** From the start cell (10, 10), ten moves right keep the game going and the eleventh ends it. */
  lemma RightFromStartEndsOnEleventh(w: World, draws: seq<Draw>)
    requires WorldValid(w) && AllInRange(draws) && w.r == 10 && w.c == 10 && !w.gameOver
    ensures !Repeat(w, Index(0), draws, 10).gameOver
    ensures Repeat(w, Index(0), draws, 11).gameOver
  {
    RepeatRight(w, draws, 10);
    RepeatRight(w, draws, 11);
  }

  /** The last of n + 1 repeated moves follows the first n. */
  lemma {:induction false} RepeatLast(w: World, action: Action, draws: seq<Draw>, n: nat)
    requires WorldValid(w) && AllInRange(draws)
    ensures Repeat(w, action, draws, n + 1) == Step(Repeat(w, action, draws, n), action, draws).0
    decreases n
  {
    if n > 0 {
      RepeatLast(Step(w, action, draws).0, action, draws, n - 1);
    }
  }

  /**
   * Moving right along a row short of the food and of the right edge
   * keeps the score, the food and the single marker.
   */
  lemma {:induction false} RepeatRightBeforeFood(w: World, draws: seq<Draw>, n: nat)
    requires WorldValid(w) && AllInRange(draws) && Tidy(w)
    requires 0 <= w.r < Rows && 0 <= w.c && w.c + n < Cols
    requires w.foodR != w.r || w.foodC <= w.c || w.c + n < w.foodC
    ensures var v := Repeat(w, Index(0), draws, n);
            (v.r, v.c) == (w.r, w.c + n) && v.score == w.score &&
            (v.foodR, v.foodC) == (w.foodR, w.foodC) && !v.gameOver == !w.gameOver && Tidy(v)
    decreases n
  {
    if n > 0 {
      var w1 := Step(w, Index(0), draws).0;
      StepHeadingAndMove(w, 0, draws);
      StepGameOver(w, Index(0), draws);
      StepPreservesTidy(w, Index(0), draws);
      assert (w1.r, w1.c) != (w.foodR, w.foodC);
      assert w1.score == w.score && (w1.foodR, w1.foodC) == (w.foodR, w.foodC);
      RepeatRightBeforeFood(w1, draws, n - 1);
    }
  }

  /**
   * The scenario of a 20 x 20 board: the snake at (10, 10), the food at
   * (10, 15).  Five moves right reach the food and score one.  While the
   * draws land on the snake at (10, 15) generate_food draws again, so the new
   * food lies on the first draw that does not, away from the snake.
   */
  lemma FiveRightsEatFood(w: World, draws: seq<Draw>)
    requires WorldValid(w) && AllInRange(draws) && Tidy(w)
    requires (w.r, w.c) == (10, 10) && (w.foodR, w.foodC) == (10, 15)
    requires exists i :: 0 <= i < |draws| && DrawCell(draws[i]) != (10, 15)
    ensures var v := Repeat(w, Index(0), draws, 5);
            (v.r, v.c) == (10, 15) && v.score == w.score + 1 && v.gameOver == w.gameOver &&
            (v.foodR, v.foodC) != (v.r, v.c) &&
            exists k :: 0 <= k < |draws| && (v.foodR, v.foodC) == DrawCell(draws[k]) &&
                        forall j :: 0 <= j < k ==> DrawCell(draws[j]) == (10, 15)
  {
    RepeatRightBeforeFood(w, draws, 4);
    var v4 := Repeat(w, Index(0), draws, 4);
    RepeatLast(w, Index(0), draws, 4);
    StepGameOver(v4, Index(0), draws);
    var m := Move(v4, Right);
    MovePreservesTidy(v4, Right);
    assert (m.r, m.c) == (10, 15);
    forall i | 0 <= i < |draws|
      ensures Blocked(m.board, draws[i]) <==> DrawCell(draws[i]) == (10, 15)
    {
      TidyBlocked(m, draws[i]);
    }
    GenerateFoodFirstFree(m.board, draws);
    var k :| 0 <= k < |draws| && !Blocked(m.board, draws[k]) &&
             (forall j :: 0 <= j < k ==> Blocked(m.board, draws[j])) &&
             GenerateFood(m.board, draws).value == DrawCell(draws[k]);
    var v := Repeat(w, Index(0), draws, 5);
    assert (v.foodR, v.foodC) == DrawCell(draws[k]);
  }

  /** When the first draw already misses the snake, the new food lands on it. */
  lemma FiveRightsFirstDraw(w: World, draws: seq<Draw>)
    requires WorldValid(w) && AllInRange(draws) && Tidy(w)
    requires (w.r, w.c) == (10, 10) && (w.foodR, w.foodC) == (10, 15)
    requires draws != [] && DrawCell(draws[0]) != (10, 15)
    ensures var v := Repeat(w, Index(0), draws, 5);
            v.score == w.score + 1 && (v.foodR, v.foodC) == DrawCell(draws[0])
  {
    FiveRightsEatFood(w, draws);
    var v := Repeat(w, Index(0), draws, 5);
    var k :| 0 <= k < |draws| && (v.foodR, v.foodC) == DrawCell(draws[k]) &&
             forall j :: 0 <= j < k ==> DrawCell(draws[j]) == (10, 15);
    assert k == 0;
  }

  /** The constructor's state is such a start. */
  lemma InitialStateStartsAtCentre(draw: Draw)
    requires DrawInRange(draw)
    ensures var w := InitialState(draw);
            w.r == 10 && w.c == 10 && w.dir == Right && !w.gameOver && w.score == 0
  {
  }

  // ---------------------------------------------------------------------
  // reset

  /**
   * reset restores score, heading, position and travel direction, leaves
   * the board as it is, and succeeds exactly when some draw lands off the
   * snake marker; the food then lands on such a cell.
   */
  lemma ResetStateEffect(w: World, draws: seq<Draw>)
    requires WorldValid(w) && AllInRange(draws)
    ensures var (v, placed) := ResetState(w, draws);
            v.board == w.board && v.score == 0 && v.dir == Right &&
            (v.x, v.y) == (StartX, StartY) && (v.r, v.c) == (10, 10) &&
            (placed <==> exists i :: 0 <= i < |draws| && !Blocked(w.board, draws[i])) &&
            (placed ==> (v.rChange, v.cChange) == (0, 1) && !v.gameOver &&
                        w.board[Cell(v.foodR, v.foodC)] != SnakeMark) &&
            (!placed ==> (v.foodR, v.foodC, v.rChange, v.cChange, v.gameOver) ==
                         (w.foodR, w.foodC, w.rChange, w.cChange, w.gameOver))
  {
    GenerateFoodFirstFree(w.board, draws);
  }

  // ---------------------------------------------------------------------
  // Food on the snake: as written, and corrected

  /** The draw that lands on the start cell (10, 10). */
  const CentreDraw: Draw := Draw(300, 300)

  /**
   * The constructor draws the food before the snake's cell is marked, so
   * the food can start on the snake: here both are at (10, 10).
   */
  lemma InitialFoodMayCoverSnake()
    ensures DrawInRange(CentreDraw)
    ensures var w := InitialState(CentreDraw);
            (w.foodR, w.foodC) == (w.r, w.c)
  {
  }

  /**
   * A world in mid-game, the input of the reset example: the snake at
   * (3, 3) with its marker, food at (0, 0), score 200.  The pixel fields
   * keep their start values, since take_action never writes them.
   */
  function MidGame(): (w: World)
    ensures WorldValid(w) && Tidy(w)
  {
    var board := EmptyBoard()[Cell(3, 3) := SnakeMark];
    assert forall i :: 0 <= i < |board| ==> (board[i] == SnakeMark <==> i == Cell(3, 3));
    World(board, StartX, StartY, 3, 3, Right, 0, 1, 0, 0, 200, false)
  }

  /**
   * reset neither clears the board nor marks the start cell: the old
   * snake marker stays behind at (3, 3), and a draw can put the food on
   * the snake's new cell.
   */
  lemma ResetMayStrandMarker()
    ensures AllInRange([CentreDraw])
    ensures var (v, placed) := ResetState(MidGame(), [CentreDraw]);
            placed && !Tidy(v) && v.board[Cell(3, 3)] == SnakeMark &&
            (v.foodR, v.foodC) == (v.r, v.c)
  {
    var (v, placed) := ResetState(MidGame(), [CentreDraw]);
    assert v.board[Cell(3, 3)] == SnakeMark;
    assert Cell(3, 3) != Cell(v.r, v.c);
  }

  /** The board with the snake marker on the start cell only. */
  function StartBoard(): (board: seq<int>)
    ensures |board| == Rows * Cols && Markers(board)
    ensures forall i :: 0 <= i < |board| ==> (board[i] == SnakeMark <==> i == Cell(10, 10))
  {
    EmptyBoard()[Cell(10, 10) := SnakeMark]
  }

  /**
   * The start state as evidently intended: mark the snake's cell first,
   * then draw the food away from it and mark the food cell.  None when
   * every draw lands on the snake.
   */
  function InitialStateCorrected(draws: seq<Draw>): (v: Option<World>)
    requires AllInRange(draws)
    ensures v.Some? ==> WorldValid(v.value) && Tidy(v.value) &&
                        (v.value.foodR, v.value.foodC) != (v.value.r, v.value.c) &&
                        (v.value.r, v.value.c) == (10, 10) && !v.value.gameOver
    ensures v.None? <==> forall i :: 0 <= i < |draws| ==> Blocked(StartBoard(), draws[i])
  {
    GenerateFoodFirstFree(StartBoard(), draws);
    var start := CoordsToIndex(StartX, StartY);
    match GenerateFood(StartBoard(), draws)
    case None => None
    case Some(food) =>
      var board := StartBoard()[Cell(food.0, food.1) := FoodMark];
      assert board[Cell(start.1, start.0)] == SnakeMark;
      Some(World(board, StartX, StartY, start.1, start.0, Right, 0, 1, food.0, food.1, 0, false))
  }

  /**
   * reset as evidently intended: the board is cleared, the start cell is
   * marked, and the food is drawn away from it.  It fails, changing
   * nothing, only when every draw lands on the start cell.
   */
  function ResetStateCorrected(w: World, draws: seq<Draw>): (result: (World, bool))
    requires WorldValid(w) && AllInRange(draws)
    ensures WorldValid(result.0)
    ensures result.1 <==> exists i :: 0 <= i < |draws| && !Blocked(StartBoard(), draws[i])
    ensures var v := result.0;
            result.1 ==> v.score == 0 && v.dir == Right && (v.x, v.y) == (StartX, StartY) &&
                         (v.r, v.c) == (10, 10) && (v.rChange, v.cChange) == (0, 1) &&
                         !v.gameOver && Tidy(v) && (v.foodR, v.foodC) != (v.r, v.c)
    ensures var v := result.0;
            result.1 ==> v.board[Cell(v.foodR, v.foodC)] == FoodMark &&
                         forall i :: (0 <= i < |v.board| && i != Cell(v.r, v.c) &&
                                      i != Cell(v.foodR, v.foodC)) ==> v.board[i] == EmptyMark
    ensures !result.1 ==> result.0 == w
    ensures result.1 ==> result.0 == InitialStateCorrected(draws).value
  {
    match InitialStateCorrected(draws)
    case None => (w, false)
    case Some(v) => (v, true)
  }

  /** From the corrected start, every successful move keeps one marker and the food off the snake. */
  lemma CorrectedStartStaysTidy(draws: seq<Draw>, action: Action, more: seq<Draw>)
    requires AllInRange(draws) && AllInRange(more) && InitialStateCorrected(draws).Some?
    ensures var (w', outcome) := Step(InitialStateCorrected(draws).value, action, more);
            Tidy(w') && (outcome == Moved ==> (w'.r, w'.c) != (w'.foodR, w'.foodC))
  {
    var w := InitialStateCorrected(draws).value;
    StepPreservesTidy(w, action, more);
    StepLeavesFoodOffSnake(w, action, more);
  }
}
