/**
 * The grid-snake environment: a single-cell snake on a 20 x 20 occupancy
 * board, one food cell, a score and a game-over flag.
 *
 * The pure functions below (Move, Eat, Step, ResetState, InitialState,
 * Observation) are the specification; the class Snake keeps the same state
 * in fields and an array and is proved to follow them.  The random draws of
 * the game are parameters, and nothing is drawn on screen.
 */
module SnakeGame {
  import opened Wrappers

  // Screen geometry in pixels, with the scale factor 1.
  const GameWidth: int := 600
  const GameHeight: int := 600
  const SnakeSize: int := 30
  const FoodSize: int := 30

  /** The board has GameHeight / SnakeSize rows and GameWidth / SnakeSize columns. */
  const Rows: int := GameHeight / SnakeSize
  const Cols: int := GameWidth / SnakeSize

  // Board markers.
  const EmptyMark: int := 0
  const SnakeMark: int := 1
  const FoodMark: int := 2

  datatype Dir = Right | Left | Up | Down

  /** Action i of the action list turns the snake to Headings[i]. */
  const Headings: seq<Dir> := [Right, Left, Up, Down]

  /** The action list: every index of Headings, in order. */
  function AvailableActions(): (actions: seq<int>)
    ensures |actions| == |Headings|
    ensures forall i :: 0 <= i < |actions| ==> actions[i] == i
  {
    [0, 1, 2, 3]
  }

  /**
   * An argument of take_action: an index into the heading list, or the
   * default that picks a heading at random (the pick is given here).
   */
  datatype Action = Index(i: int) | Unspecified(pick: Dir)

  /**
   * The heading an action names, with the list indexing of the source:
   * a negative index counts from the end, and None stands for the IndexError
   * raised by any other index.
   */
  function Resolve(action: Action): (d: Option<Dir>)
    ensures d.None? <==> action.Index? && !(-|Headings| <= action.i < |Headings|)
    ensures action.Index? && d.Some? ==> d.value == Headings[action.i % |Headings|]
    ensures action.Unspecified? ==> d == Some(action.pick)
  {
    match action
    case Unspecified(pick) => Some(pick)
    case Index(i) =>
      if 0 <= i < |Headings| then Some(Headings[i])
      else if -|Headings| <= i < 0 then Some(Headings[|Headings| + i])
      else None
  }

  /** The step (r_change, c_change) of a heading. */
  function Delta(d: Dir): (delta: (int, int))
    ensures delta.0 * delta.0 + delta.1 * delta.1 == 1
    ensures delta.0 == 0 <==> d == Left || d == Right
    ensures delta.0 + delta.1 == 1 <==> d == Right || d == Down
  {
    match d
    case Left => (0, -1)
    case Right => (0, 1)
    case Up => (-1, 0)
    case Down => (1, 0)
  }

  // ---------------------------------------------------------------------
  // Pixel coordinates and board indices

  /** int(n / SnakeSize): true division, then truncation toward zero. */
  function TruncDiv(n: int): (q: int)
    ensures 0 <= n ==> 0 <= q * SnakeSize <= n < q * SnakeSize + SnakeSize
    ensures n < 0 ==> q * SnakeSize - SnakeSize < n <= q * SnakeSize <= 0
  {
    if n >= 0 then n / SnakeSize else -((-n) / SnakeSize)
  }

  /** coords_to_index: pixel (x, y) to the pair (column, row). */
  function CoordsToIndex(x: int, y: int): (cr: (int, int))
    ensures 0 <= x ==> 0 <= cr.0 && cr.0 * SnakeSize <= x < cr.0 * SnakeSize + SnakeSize
    ensures 0 <= y ==> 0 <= cr.1 && cr.1 * SnakeSize <= y < cr.1 * SnakeSize + SnakeSize
    ensures x < 0 ==> cr.0 <= 0 && cr.0 * SnakeSize - SnakeSize < x <= cr.0 * SnakeSize
    ensures y < 0 ==> cr.1 <= 0 && cr.1 * SnakeSize - SnakeSize < y <= cr.1 * SnakeSize
  {
    (TruncDiv(x), TruncDiv(y))
  }

  /** index_to_coords: cell (row, column) to the pixel pair (x, y). */
  function IndexToCoords(r: int, c: int): (xy: (int, int))
    ensures xy.0 % SnakeSize == 0 && xy.1 % SnakeSize == 0
    ensures ValidIndex(r, c) <==> 0 <= xy.0 < GameWidth && 0 <= xy.1 < GameHeight
  {
    (c * SnakeSize, r * SnakeSize)
  }

  /** valid_index: (r, c) lies on the board. */
  predicate ValidIndex(r: int, c: int)
  {
    0 <= r < Rows && 0 <= c < Cols
  }

  /** Position of cell (r, c) in the row-major board sequence. */
  function Cell(r: int, c: int): (i: int)
    requires ValidIndex(r, c)
    ensures 0 <= i < Rows * Cols
  {
    r * Cols + c
  }

  /** The out-of-screen test of take_action, written with the screen dimensions. */
  predicate PastEdge(r: int, c: int)
  {
    c >= GameWidth / SnakeSize || r >= GameHeight / SnakeSize || c < 0 || r < 0
  }

  /** is_unsafe: 1 for an on-board cell holding the snake marker, else 0. */
  function IsUnsafe(board: seq<int>, r: int, c: int): (u: int)
    requires |board| == Rows * Cols
    ensures u == 0 || u == 1
    ensures u == 1 <==> ValidIndex(r, c) && board[Cell(r, c)] == SnakeMark
  {
    if ValidIndex(r, c) then
      if board[Cell(r, c)] == SnakeMark then 1 else 0
    else
      0
  }

  // ---------------------------------------------------------------------
  // Food placement

  /** The two randrange(0, 570) results of one attempt: the column's first, then the row's. */
  datatype Draw = Draw(cDraw: int, rDraw: int)

  predicate DrawInRange(d: Draw)
  {
    0 <= d.cDraw < GameWidth - FoodSize && 0 <= d.rDraw < GameHeight - FoodSize
  }

  predicate AllInRange(draws: seq<Draw>)
  {
    forall i :: 0 <= i < |draws| ==> DrawInRange(draws[i])
  }

  /** int(round(n / FoodSize)): the nearest integer, a tie going to the even one. */
  function RoundToCell(n: int): (k: int)
    requires n >= 0
    ensures k >= 0
    ensures -FoodSize <= 2 * (n - k * FoodSize) <= FoodSize
    ensures 2 * (n - k * FoodSize) == FoodSize || 2 * (n - k * FoodSize) == -FoodSize ==> k % 2 == 0
  {
    var q, m := n / FoodSize, n % FoodSize;
    if 2 * m < FoodSize then q
    else if 2 * m > FoodSize then q + 1
    else if q % 2 == 0 then q else q + 1
  }

  /** The cell (food_r, food_c) that one attempt of generate_food lands on. */
  function DrawCell(d: Draw): (cell: (int, int))
    requires DrawInRange(d)
    ensures ValidIndex(cell.0, cell.1)
  {
    (RoundToCell(d.rDraw), RoundToCell(d.cDraw))
  }

  /** The attempt d lands on a cell that holds the snake marker, so generate_food draws again. */
  predicate Blocked(board: seq<int>, d: Draw)
    requires |board| == Rows * Cols && DrawInRange(d)
  {
    board[Cell(DrawCell(d).0, DrawCell(d).1)] == SnakeMark
  }

  /**
   * generate_food: the cell of the first attempt that is not blocked, or
   * None when every given attempt is.
   */
  function GenerateFood(board: seq<int>, draws: seq<Draw>): (food: Option<(int, int)>)
    requires |board| == Rows * Cols && AllInRange(draws)
    ensures food.Some? ==> ValidIndex(food.value.0, food.value.1)
    ensures food.Some? ==> board[Cell(food.value.0, food.value.1)] != SnakeMark
    decreases |draws|
  {
    if draws == [] then None
    else if Blocked(board, draws[0]) then
      GenerateFood(board, draws[1..])
    else Some(DrawCell(draws[0]))
  }

  // ---------------------------------------------------------------------
  // The state and its transitions

  datatype World = World(board: seq<int>, x: int, y: int, r: int, c: int, dir: Dir,
                         rChange: int, cChange: int, foodR: int, foodC: int,
                         score: int, gameOver: bool)

  /** Every board cell holds one of the three markers. */
  predicate Markers(board: seq<int>)
  {
    forall i :: 0 <= i < |board| ==> EmptyMark <= board[i] <= FoodMark
  }

  predicate WorldValid(w: World)
  {
    |w.board| == Rows * Cols && Markers(w.board) && ValidIndex(w.foodR, w.foodC) && w.score >= 0
  }

  /**
   * The first part of take_action once the heading is known: set the heading,
   * raise the game-over flag when the position before the move is off the
   * screen, clear the old cell, step, mark the new cell.
   */
  function Move(w: World, d: Dir): (m: World)
    requires WorldValid(w)
    ensures WorldValid(m)
  {
    Shift(Turn(w, d))
  }

  /** The if-chain of take_action: the new heading and its unit step. */
  function Turn(w: World, d: Dir): (t: World)
    requires WorldValid(w)
    ensures WorldValid(t)
  {
    var (dr, dc) := Delta(d);
    w.(dir := d, rChange := dr, cChange := dc)
  }

  /** The edge check, then one step along the current heading with the board markers. */
  function Shift(w: World): (m: World)
    requires WorldValid(w)
    ensures WorldValid(m)
  {
    var over := if PastEdge(w.r, w.c) then true else w.gameOver;
    var cleared := if ValidIndex(w.r, w.c) then w.board[Cell(w.r, w.c) := EmptyMark] else w.board;
    var (r', c') := (w.r + w.rChange, w.c + w.cChange);
    var marked := if ValidIndex(r', c') then cleared[Cell(r', c') := SnakeMark] else cleared;
    w.(gameOver := over, board := marked, r := r', c := c')
  }

  /**
   * The last part of take_action: on reaching the food, place new food,
   * clear the marker of its cell and score one.  The flag is false when the
   * draws ran out before a free cell was found; state is then as it stands.
   */
  function Eat(w: World, draws: seq<Draw>): (result: (World, bool))
    requires WorldValid(w) && AllInRange(draws)
    ensures WorldValid(result.0)
  {
    if w.r == w.foodR && w.c == w.foodC then
      match GenerateFood(w.board, draws)
      case None => (w, false)
      case Some(food) =>
        (w.(foodR := food.0, foodC := food.1,
            board := w.board[Cell(food.0, food.1) := EmptyMark],
            score := w.score + 1), true)
    else
      (w, true)
  }

  datatype Outcome = Moved | BadIndex | OutOfDraws

  /** take_action: resolve the action, move, eat. */
  function Step(w: World, action: Action, draws: seq<Draw>): (result: (World, Outcome))
    requires WorldValid(w) && AllInRange(draws)
    ensures WorldValid(result.0)
  {
    match Resolve(action)
    case None => (w, BadIndex)
    case Some(d) =>
      var (w', placed) := Eat(Move(w, d), draws);
      (w', if placed then Moved else OutOfDraws)
  }

  /** The start position, from the screen centre. */
  const StartX: int := GameWidth / 2
  const StartY: int := GameHeight / 2

  /**
   * reset: score, heading, position and direction of travel return to their
   * start values and the food is drawn again; the board is left as it is.
   */
  function ResetState(w: World, draws: seq<Draw>): (result: (World, bool))
    requires WorldValid(w) && AllInRange(draws)
    ensures WorldValid(result.0)
  {
    var (c, r) := CoordsToIndex(StartX, StartY);
    var w1 := w.(score := 0, dir := Right, x := StartX, y := StartY, c := c, r := r);
    match GenerateFood(w1.board, draws)
    case None => (w1, false)
    case Some(food) => (w1.(foodR := food.0, foodC := food.1, cChange := 1, rChange := 0, gameOver := false), true)
  }

  /** The board of a new game: every cell empty. */
  function EmptyBoard(): (board: seq<int>)
    ensures |board| == Rows * Cols
    ensures forall i :: 0 <= i < |board| ==> board[i] == EmptyMark
  {
    seq(Rows * Cols, _ => EmptyMark)
  }

  /**
   * The state the constructor builds: the food is drawn on the empty board,
   * its cell gets the food marker, and then the start cell the snake marker.
   */
  function InitialState(draw: Draw): (w: World)
    requires DrawInRange(draw)
    ensures WorldValid(w)
  {
    var start := CoordsToIndex(StartX, StartY);
    var food := DrawCell(draw);
    World(EmptyBoard()[Cell(food.0, food.1) := FoodMark][Cell(start.1, start.0) := SnakeMark],
          StartX, StartY, start.1, start.0, Right, 0, 1, food.0, food.1, 0, false)
  }

  function Bit(b: bool): int
  {
    if b then 1 else 0
  }

  /** The entry of the observation that flags the heading d. */
  function HeadingBit(d: Dir): int
  {
    match d
    case Left => 0
    case Right => 1
    case Up => 2
    case Down => 3
  }

  /**
   * get_state: the heading as four flags (left, right, up, down), where the
   * food lies (left, right, below, above) and which of the four neighbours
   * (left, right, above, below) holds the snake marker.
   */
  function Observation(w: World): (obs: seq<int>)
    requires |w.board| == Rows * Cols
    ensures |obs| == 12
    ensures forall i :: 0 <= i < |obs| ==> obs[i] == 0 || obs[i] == 1
    ensures obs[0] + obs[1] + obs[2] + obs[3] == 1 && obs[HeadingBit(w.dir)] == 1
    ensures obs[4] + obs[5] <= 1 && obs[6] + obs[7] <= 1
  {
    [Bit(w.dir == Left), Bit(w.dir == Right), Bit(w.dir == Up), Bit(w.dir == Down),
     Bit(w.c > w.foodC), Bit(w.c < w.foodC), Bit(w.r < w.foodR), Bit(w.r > w.foodR),
     IsUnsafe(w.board, w.r, w.c - 1), IsUnsafe(w.board, w.r, w.c + 1),
     IsUnsafe(w.board, w.r - 1, w.c), IsUnsafe(w.board, w.r + 1, w.c)]
  }

  // ---------------------------------------------------------------------
  // The environment object

  class Snake {
    const board: array<int>
    var x: int
    var y: int
    var r: int
    var c: int
    var dir: Dir
    var rChange: int
    var cChange: int
    var foodR: int
    var foodC: int
    var score: int
    var gameOver: bool

    /** The state of the object as a value. */
    ghost function Model(): World
      reads this, board
    {
      World(board[..], x, y, r, c, dir, rChange, cChange, foodR, foodC, score, gameOver)
    }

    ghost predicate Valid()
      reads this, board
    {
      board.Length == Rows * Cols && WorldValid(Model())
    }

    constructor (draw: Draw)
      requires DrawInRange(draw)
      ensures Valid() && fresh(board)
      ensures Model() == InitialState(draw)
    {
      var b := new int[Rows * Cols](_ => EmptyMark);
      var cell := CoordsToIndex(StartX, StartY);
      assert b[..] == EmptyBoard();
      var food := GenerateFood(b[..], [draw]);
      assert !Blocked(b[..], draw);
      b[Cell(food.value.0, food.value.1)] := FoodMark;
      b[Cell(cell.1, cell.0)] := SnakeMark;
      board := b;
      dir := Right;
      x, y := StartX, StartY;
      c, r := cell.0, cell.1;
      foodR, foodC := food.value.0, food.value.1;
      cChange, rChange := 1, 0;
      score := 0;
      gameOver := false;
    }

    /** get_state, built one entry at a time. */
    method GetState() returns (state: seq<int>)
      requires Valid()
      ensures state == Observation(Model())
    {
      ghost var w := Model();
      var cells := board[..];
      assert cells == w.board && dir == w.dir && r == w.r && c == w.c && foodR == w.foodR && foodC == w.foodC;
      state := [];
      state := state + [Bit(dir == Left)];
      state := state + [Bit(dir == Right)];
      state := state + [Bit(dir == Up)];
      state := state + [Bit(dir == Down)];
      state := state + [Bit(c > foodC)];
      state := state + [Bit(c < foodC)];
      state := state + [Bit(r < foodR)];
      state := state + [Bit(r > foodR)];
      state := state + [IsUnsafe(cells, r, c - 1)];
      state := state + [IsUnsafe(cells, r, c + 1)];
      state := state + [IsUnsafe(cells, r - 1, c)];
      state := state + [IsUnsafe(cells, r + 1, c)];
    }

    /** take_action, without its drawing. */
    method TakeAction(action: Action, draws: seq<Draw>) returns (outcome: Outcome)
      requires Valid() && AllInRange(draws)
      modifies this, board
      ensures Valid()
      ensures (Model(), outcome) == Step(old(Model()), action, draws)
    {
      var heading := Resolve(action);
      if heading.None? {
        return BadIndex;
      }
      Advance(heading.value);
      var placed := EatFood(draws);
      outcome := if placed then Moved else OutOfDraws;
    }

    /** The first part of take_action: turn, then step. */
    method Advance(d: Dir)
      requires Valid()
      modifies this, board
      ensures Valid()
      ensures Model() == Move(old(Model()), d)
    {
      TurnTo(d);
      StepAhead();
    }

    /** The if-chain of take_action on the resolved heading. */
    method TurnTo(d: Dir)
      requires Valid()
      modifies this
      ensures Valid()
      ensures Model() == Turn(old(Model()), d)
    {
      if d == Left {
        cChange, rChange, dir := -1, 0, Left;
      } else if d == Right {
        cChange, rChange, dir := 1, 0, Right;
      } else if d == Up {
        rChange, cChange, dir := -1, 0, Up;
      } else {
        rChange, cChange, dir := 1, 0, Down;
      }
    }

    /** The edge check, clearing the old cell, the step, marking the new cell. */
    method StepAhead()
      requires Valid()
      modifies this, board
      ensures Valid()
      ensures Model() == Shift(old(Model()))
    {
      if c >= GameWidth / SnakeSize || r >= GameHeight / SnakeSize || c < 0 || r < 0 {
        gameOver := true;
      }
      if ValidIndex(r, c) {
        board[Cell(r, c)] := EmptyMark;
      }
      c := c + cChange;
      r := r + rChange;
      if ValidIndex(r, c) {
        board[Cell(r, c)] := SnakeMark;
      }
    }

    /** The last part of take_action: eat the food on reaching it. */
    method EatFood(draws: seq<Draw>) returns (placed: bool)
      requires Valid() && AllInRange(draws)
      modifies this, board
      ensures Valid()
      ensures (Model(), placed) == Eat(old(Model()), draws)
    {
      if c == foodC && r == foodR {
        var food := GenerateFood(board[..], draws);
        if food.None? {
          return false;
        }
        foodR, foodC := food.value.0, food.value.1;
        board[Cell(foodR, foodC)] := EmptyMark;
        score := score + 1;
      }
      placed := true;
    }

    /** reset; it does not touch the board. */
    method Reset(draws: seq<Draw>) returns (placed: bool)
      requires Valid() && AllInRange(draws)
      modifies this
      ensures Valid()
      ensures (Model(), placed) == ResetState(old(Model()), draws)
    {
      score := 0;
      dir := Right;
      x, y := StartX, StartY;
      var cell := CoordsToIndex(x, y);
      c, r := cell.0, cell.1;
      var food := GenerateFood(board[..], draws);
      if food.None? {
        return false;
      }
      foodR, foodC := food.value.0, food.value.1;
      cChange := 1;
      rChange := 0;
      gameOver := false;
      placed := true;
    }
  }
}
