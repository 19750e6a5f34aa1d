/** The board state machine of the tic-tac-toe game (game/source/game.c):
    a 9-cell character buffer and a game state, updated in place by a mouse
    click and classified by scanning the eight winning lines. */
module TicTacToe {
  import opened Window

  const Player1: char := 'X'
  const Player2: char := 'O'
  const Blank: char := '_'
  const Rows: nat := 3
  const Columns: nat := 3
  const CellCount: nat := Rows * Columns

  datatype GameState = Player1Won | Player2Won | Draw | Unfinished

  /** A cell position on the board: column `x`, row `y`. */
  datatype Point = Point(x: int, y: int)

  // ---------------------------------------------------------------------
  // Index mapping (the INDEX2D1D and INDEX1D2D macros)

  predicate OnBoard(p: Point) {
    0 <= p.x < Columns && 0 <= p.y < Rows
  }

  /** INDEX2D1D: buffer index of column `x`, row `y`. */
  function Index2D1D(x: int, y: int): (i: int)
    ensures OnBoard(Point(x, y)) ==> 0 <= i < CellCount
  {
    Rows * y + x
  }

  /** INDEX1D2D: board position of buffer index `i`. */
  function Index1D2D(i: nat): (p: Point)
    ensures i < CellCount ==> OnBoard(p)
  {
    Point(i % Rows, i / Columns)
  }

  lemma IndexRoundTrip2D(x: int, y: int)
    requires OnBoard(Point(x, y))
    ensures 0 <= Index2D1D(x, y) < CellCount
    ensures Index1D2D(Index2D1D(x, y)) == Point(x, y)
  {
  }

  lemma IndexRoundTrip1D(i: nat)
    requires i < CellCount
    ensures Index2D1D(Index1D2D(i).x, Index1D2D(i).y) == i
  {
  }

  // ---------------------------------------------------------------------
  // The board as a value

  /** Every cell holds one of the three symbols. */
  predicate WellFormed(b: seq<char>) {
    |b| == CellCount &&
    forall i :: 0 <= i < |b| ==> b[i] == Player1 || b[i] == Player2 || b[i] == Blank
  }

  /** Number of blank cells. */
  function BlankCount(b: seq<char>): nat {
    if b == [] then 0 else (if b[0] == Blank then 1 else 0) + BlankCount(b[1..])
  }

  /** A board of blanks only counts every cell. */
  lemma {:induction false} BlankCountAllBlank(b: seq<char>)
    requires forall i :: 0 <= i < |b| ==> b[i] == Blank
    ensures BlankCount(b) == |b|
  {
    if b != [] {
      BlankCountAllBlank(b[1..]);
    }
  }

  /** Marking one blank cell takes exactly one blank away. */
  lemma {:induction false} BlankCountMark(b: seq<char>, i: nat, m: char)
    requires i < |b| && b[i] == Blank && m != Blank
    ensures BlankCount(b[i := m]) == BlankCount(b) - 1
  {
    if i == 0 {
      assert b[i := m][1..] == b[1..];
    } else {
      BlankCountMark(b[1..], i - 1, m);
      assert b[i := m][1..] == b[1..][i - 1 := m];
    }
  }

  /** Three buffer indices that form a line. */
  datatype Line = Line(i: nat, j: nat, k: nat)

  /** The eight winning lines: three rows, three columns, two diagonals. */
  const WinningLines: seq<Line> := [
    Line(0, 1, 2), Line(3, 4, 5), Line(6, 7, 8),
    Line(0, 3, 6), Line(1, 4, 7), Line(2, 5, 8),
    Line(0, 4, 8), Line(6, 4, 2)
  ]

  /** Line `n` of WinningLines is entirely `p`. */
  predicate Completes(b: seq<char>, n: int, p: char)
    requires |b| == CellCount
  {
    0 <= n < |WinningLines| &&
    var l := WinningLines[n];
    b[l.i] == p && b[l.j] == p && b[l.k] == p
  }

  /** Player `p` owns at least one whole line. */
  predicate HasLine(b: seq<char>, p: char)
    requires |b| == CellCount
  {
    exists n :: 0 <= n < |WinningLines| && Completes(b, n, p)
  }

  // ---------------------------------------------------------------------
  // Line checks (cells_are_equal and the row/column/diagonal helpers)

  /** cells_are_equal: the three cells agree with each other and with `p`. */
  function CellsAreEqual(b: seq<char>, i: nat, j: nat, k: nat, p: char): (r: bool)
    requires |b| == CellCount && i < CellCount && j < CellCount && k < CellCount
    ensures r <==> b[i] == p && b[j] == p && b[k] == p
  {
    b[i] == b[j] && b[i] == b[k] && b[i] == p
  }

  function RowCellsAreEqual(b: seq<char>, row: nat, p: char): (r: bool)
    requires |b| == CellCount && row < Rows
    ensures r <==> forall c :: 0 <= c < CellCount && Index1D2D(c).y == row ==> b[c] == p
  {
    CellsAreEqual(b, Index2D1D(0, row), Index2D1D(1, row), Index2D1D(2, row), p)
  }

  function ColumnCellsAreEqual(b: seq<char>, column: nat, p: char): (r: bool)
    requires |b| == CellCount && column < Columns
    ensures r <==> forall c :: 0 <= c < CellCount && Index1D2D(c).x == column ==> b[c] == p
  {
    CellsAreEqual(b, Index2D1D(column, 0), Index2D1D(column, 1), Index2D1D(column, 2), p)
  }

  /** The diagonal from the top-left corner: x == y. */
  function PrimaryDiagonalCellsAreEqual(b: seq<char>, p: char): (r: bool)
    requires |b| == CellCount
    ensures r <==> forall c :: 0 <= c < CellCount && Index1D2D(c).x == Index1D2D(c).y ==> b[c] == p
  {
    CellsAreEqual(b, Index2D1D(0, 0), Index2D1D(1, 1), Index2D1D(2, 2), p)
  }

  /** The diagonal from the bottom-left corner: x + y == 2. */
  function SecondaryDiagonalCellsAreEqual(b: seq<char>, p: char): (r: bool)
    requires |b| == CellCount
    ensures r <==> forall c :: 0 <= c < CellCount && Index1D2D(c).x + Index1D2D(c).y == Columns - 1 ==> b[c] == p
  {
    CellsAreEqual(b, Index2D1D(0, 2), Index2D1D(1, 1), Index2D1D(2, 0), p)
  }

  /** The checks made by have_player_won cover exactly the eight winning lines. */
  lemma ScanCoversWinningLines(b: seq<char>, p: char)
    requires |b| == CellCount
    ensures HasLine(b, p) <==>
      PrimaryDiagonalCellsAreEqual(b, p) || SecondaryDiagonalCellsAreEqual(b, p) ||
      RowCellsAreEqual(b, 0, p) || ColumnCellsAreEqual(b, 0, p) ||
      RowCellsAreEqual(b, 1, p) || ColumnCellsAreEqual(b, 1, p) ||
      RowCellsAreEqual(b, 2, p) || ColumnCellsAreEqual(b, 2, p)
  {
    if HasLine(b, p) {
      var n :| 0 <= n < |WinningLines| && Completes(b, n, p);
      assert n < 3 ==> RowCellsAreEqual(b, n, p);
      assert 3 <= n < 6 ==> ColumnCellsAreEqual(b, n - 3, p);
    }
    if RowCellsAreEqual(b, 0, p) { assert Completes(b, 0, p); }
    if RowCellsAreEqual(b, 1, p) { assert Completes(b, 1, p); }
    if RowCellsAreEqual(b, 2, p) { assert Completes(b, 2, p); }
    if ColumnCellsAreEqual(b, 0, p) { assert Completes(b, 3, p); }
    if ColumnCellsAreEqual(b, 1, p) { assert Completes(b, 4, p); }
    if ColumnCellsAreEqual(b, 2, p) { assert Completes(b, 5, p); }
    if PrimaryDiagonalCellsAreEqual(b, p) { assert Completes(b, 6, p); }
    if SecondaryDiagonalCellsAreEqual(b, p) { assert Completes(b, 7, p); }
  }

  // ---------------------------------------------------------------------
  // Game state (current_game_state)

  /** The state current_game_state reports for board `b`. */
  function StateOf(b: seq<char>): (s: GameState)
    requires |b| == CellCount
    ensures s != Draw
    ensures HasLine(b, Player1) ==> s == Player1Won
    ensures s == Player2Won <==> !HasLine(b, Player1) && HasLine(b, Player2)
    ensures s == Unfinished <==> !HasLine(b, Player1) && !HasLine(b, Player2)
  {
    if HasLine(b, Player1) then Player1Won
    else if HasLine(b, Player2) then Player2Won
    else Unfinished
  }

  /** When both players own a line, player 1 is reported as the winner. */
  lemma Player1TakesPrecedence(b: seq<char>)
    requires |b| == CellCount && HasLine(b, Player1) && HasLine(b, Player2)
    ensures StateOf(b) == Player1Won
  {
  }

  /** Both players can own a line at once: XXX/OOO/___ is such a board. */
  lemma BothPlayersOwnALine()
    ensures HasLine("XXXOOO___", Player1) && HasLine("XXXOOO___", Player2)
    ensures StateOf("XXXOOO___") == Player1Won
  {
    assert Completes("XXXOOO___", 0, Player1);
    assert Completes("XXXOOO___", 1, Player2);
    Player1TakesPrecedence("XXXOOO___");
  }

  /** A win may complete more than one line at once. */
  lemma WinWithTwoLines()
    ensures Completes("XXXX__X__", 0, Player1) && Completes("XXXX__X__", 3, Player1)
    ensures StateOf("XXXX__X__") == Player1Won
  {
    assert Completes("XXXX__X__", 0, Player1);
  }

  /** A full board with no line is reported as unfinished, never as a draw.
      The first requires only says what "full board" means; "no line" alone decides the state. */
  lemma FullBoardIsUnfinished(b: seq<char>)
    requires WellFormed(b) && BlankCount(b) == 0
    requires !HasLine(b, Player1) && !HasLine(b, Player2)
    ensures StateOf(b) == Unfinished
  {
  }

  /** Such full boards exist: XOX/XOO/OXX has no line. */
  lemma FullBoardWithoutLine()
    ensures WellFormed("XOXXOOOXX") && BlankCount("XOXXOOOXX") == 0
    ensures !HasLine("XOXXOOOXX", Player1) && !HasLine("XOXXOOOXX", Player2)
    ensures StateOf("XOXXOOOXX") == Unfinished
  {
    FullBoardIsUnfinished("XOXXOOOXX");
  }

  // ---------------------------------------------------------------------
  // Click to cell (the coordinate arithmetic of game_input)

  /** The column under pixel column `px`: `(int)(BOARD_COLUMNS * x / WINDOW_SIZE)`. */
  function ColumnAt(px: int): (c: int)
    requires InWindow(px)
    ensures 0 <= c < Columns
    ensures c * WindowSize <= Columns * px < (c + 1) * WindowSize
  {
    Columns * px / WindowSize
  }

  /** The row under pixel row `py`: `(int)(BOARD_ROWS * y / WINDOW_SIZE)`. */
  function RowAt(py: int): (r: int)
    requires InWindow(py)
    ensures 0 <= r < Rows
    ensures r * WindowSize <= Rows * py < (r + 1) * WindowSize
  {
    Rows * py / WindowSize
  }

  /** The buffer index game_input writes for a click at (px, py). */
  function ClickedCell(px: int, py: int): (i: nat)
    requires InWindow(px) && InWindow(py)
    ensures i < CellCount
    ensures Index1D2D(i) == Point(ColumnAt(px), RowAt(py))
  {
    IndexRoundTrip2D(ColumnAt(px), RowAt(py));
    Index2D1D(ColumnAt(px), RowAt(py))
  }

  /** The board after game_input sees buttons `left`, `right` and a pointer at (px, py). */
  function Move(b: seq<char>, left: bool, right: bool, px: int, py: int): (r: seq<char>)
    requires |b| == CellCount
    requires left || right ==> InWindow(px) && InWindow(py)
    ensures |r| == |b|
    ensures !left && !right ==> r == b
    ensures left || right ==> forall i :: 0 <= i < |b| && i != ClickedCell(px, py) ==> r[i] == b[i]
    ensures left || right ==>
      r[ClickedCell(px, py)] == (if b[ClickedCell(px, py)] != Blank then b[ClickedCell(px, py)]
                                 else if left then Player1 else Player2)
    ensures forall i :: 0 <= i < |b| && b[i] != Blank ==> r[i] == b[i]
  {
    if !left && !right then b
    else
      var index := ClickedCell(px, py);
      if b[index] != Blank then b
      else b[index := if left then Player1 else Player2]
  }

  /** A move keeps every cell one of the three symbols. */
  lemma MoveKeepsWellFormed(b: seq<char>, left: bool, right: bool, px: int, py: int)
    requires WellFormed(b)
    requires left || right ==> InWindow(px) && InWindow(py)
    ensures WellFormed(Move(b, left, right, px, py))
  {
  }

  /** A move fills at most one blank: the blank count drops by one exactly when a cell is marked. */
  lemma MoveBlankCount(b: seq<char>, left: bool, right: bool, px: int, py: int)
    requires |b| == CellCount
    requires left || right ==> InWindow(px) && InWindow(py)
    ensures var r := Move(b, left, right, px, py);
      BlankCount(r) == if r == b then BlankCount(b) else BlankCount(b) - 1
  {
    if left || right {
      var index := ClickedCell(px, py);
      if b[index] == Blank {
        BlankCountMark(b, index, if left then Player1 else Player2);
      }
    }
  }

  /** A line a player owns survives every later move. */
  lemma MoveKeepsLine(b: seq<char>, p: char, left: bool, right: bool, px: int, py: int)
    requires |b| == CellCount && p != Blank && HasLine(b, p)
    requires left || right ==> InWindow(px) && InWindow(py)
    ensures HasLine(Move(b, left, right, px, py), p)
  {
    var n :| 0 <= n < |WinningLines| && Completes(b, n, p);
    assert Completes(Move(b, left, right, px, py), n, p);
  }

  /** Once player 1 has won, no move changes the reported state. */
  lemma Player1WinIsFinal(b: seq<char>, left: bool, right: bool, px: int, py: int)
    requires |b| == CellCount && StateOf(b) == Player1Won
    requires left || right ==> InWindow(px) && InWindow(py)
    ensures StateOf(Move(b, left, right, px, py)) == Player1Won
  {
    MoveKeepsLine(b, Player1, left, right, px, py);
  }

  /** A player 2 win is not final: XX_/OOO/___ is a player 2 win, and a left
      click on the top-right cell turns it into a player 1 win. */
  lemma Player2WinCanBeOverturned()
    ensures StateOf("XX_OOO___") == Player2Won
    ensures Move("XX_OOO___", true, false, 500, 0) == "XXXOOO___"
    ensures StateOf(Move("XX_OOO___", true, false, 500, 0)) == Player1Won
  {
    assert Completes("XX_OOO___", 1, Player2);
    assert ClickedCell(500, 0) == 2;
    assert "XX_OOO___"[2 := Player1] == "XXXOOO___";
    BothPlayersOwnALine();
  }

  // ---------------------------------------------------------------------
  // Hover highlight (current_cell_third)

  /** current_cell_third: left (or top) edge of the window third holding `point`. */
  function CurrentCellThird(point: int): (t: int)
    ensures t == FirstThird <==> point < SecondThird
    ensures t == SecondThird <==> SecondThird <= point < ThirdThird
    ensures t == ThirdThird <==> ThirdThird <= point
  {
    if point < SecondThird then FirstThird
    else if point < ThirdThird then SecondThird
    else ThirdThird
  }

  lemma CurrentCellThirdMonotone(p: int, q: int)
    requires p <= q
    ensures CurrentCellThird(p) <= CurrentCellThird(q)
  {
  }

  /** The hover thresholds 213 and 426 are not where clicks change cells:
      at pixel 213 the highlight is on the second column, a click on the first. */
  lemma HoverMissesClickedCell()
    ensures CurrentCellThird(213) == SecondThird && ColumnAt(213) == 0
    ensures CurrentCellThird(426) == ThirdThird && ColumnAt(426) == 1
  {
  }

  /** The corrected edge differs from current_cell_third only at pixels 213 and 426. */
  lemma HoverCellThirdDiffersOnlyAtBoundaries(p: int)
    requires InWindow(p)
    ensures HoverCellThird(p) == CurrentCellThird(p) <==> p != SecondThird && p != ThirdThird
  {
  }

  /** The hover edge derived from the same mapping game_input uses. */
  function HoverCellThird(point: int): (t: int)
    requires InWindow(point)
    ensures t == [FirstThird, SecondThird, ThirdThird][ColumnAt(point)]
  {
    CellSize * ColumnAt(point)
  }

  /** The corrected highlight sits on the very cell a click at the same position marks. */
  lemma HoverMatchesClickedCell(px: int, py: int)
    requires InWindow(px) && InWindow(py)
    ensures HoverCellThird(px) == CellSize * Index1D2D(ClickedCell(px, py)).x
    ensures HoverCellThird(py) == CellSize * Index1D2D(ClickedCell(px, py)).y
  {
  }

  // ---------------------------------------------------------------------
  // The Game struct

  class Game {
    var state: GameState
    var buffer: array<char>

    /** The buffer has nine cells, each one of the three symbols. */
    ghost predicate Valid()
      reads this, buffer
    {
      WellFormed(buffer[..])
    }

    /** `state` is what current_game_state reports for the buffer (true after construction and every update). */
    ghost predicate StateIsCurrent()
      reads this, buffer
      requires Valid()
    {
      state == StateOf(buffer[..])
    }

    /** game_construct: an all-blank board in state UNFINISHED. */
    constructor ()
      ensures Valid() && StateIsCurrent() && fresh(buffer)
      ensures forall i :: 0 <= i < CellCount ==> buffer[i] == Blank
      ensures BlankCount(buffer[..]) == CellCount
      ensures state == Unfinished && IsRunning()
    {
      var cells := new char[CellCount];
      for index := 0 to CellCount
        invariant forall i :: 0 <= i < index ==> cells[i] == Blank
      {
        cells[index] := Blank;
      }
      buffer := cells;
      state := Unfinished;
      new;
      BlankCountAllBlank(buffer[..]);
      assert buffer[..] == "_________";
    }

    /** have_player_won: scans both diagonals, then row and column `index` for each index. */
    method HavePlayerWon(player: char) returns (won: bool)
      requires Valid()
      ensures won <==> HasLine(buffer[..], player)
    {
      var b := buffer[..];
      ScanCoversWinningLines(b, player);
      if PrimaryDiagonalCellsAreEqual(b, player) {
        return true;
      }
      if SecondaryDiagonalCellsAreEqual(b, player) {
        return true;
      }
      var index := 0;
      while index < Rows
        invariant 0 <= index <= Rows
        invariant forall r :: 0 <= r < index ==> !RowCellsAreEqual(b, r, player) && !ColumnCellsAreEqual(b, r, player)
      {
        if RowCellsAreEqual(b, index, player) {
          return true;
        }
        if ColumnCellsAreEqual(b, index, player) {
          return true;
        }
        index := index + 1;
      }
      return false;
    }

    /** current_game_state: player 1's line first, then player 2's; a draw is never detected. */
    method CurrentGameState() returns (s: GameState)
      requires Valid()
      ensures s == StateOf(buffer[..])
    {
      var first := HavePlayerWon(Player1);
      if first {
        return Player1Won;
      }
      var second := HavePlayerWon(Player2);
      if second {
        return Player2Won;
      }
      return Unfinished;
    }

    /** game_input: a press writes X (left button) or O (right button only) into a blank cell under the pointer. */
    method Input(left: bool, right: bool, px: int, py: int)
      requires Valid()
      requires left || right ==> InWindow(px) && InWindow(py)
      modifies buffer
      ensures Valid()
      ensures buffer[..] == Move(old(buffer[..]), left, right, px, py)
      ensures BlankCount(buffer[..]) <= BlankCount(old(buffer[..]))
    {
      MoveKeepsWellFormed(buffer[..], left, right, px, py);
      MoveBlankCount(buffer[..], left, right, px, py);
      if !left && !right {
        return;
      }
      var x := ColumnAt(px);
      var y := RowAt(py);
      var index := Index2D1D(x, y);
      if buffer[index] != Blank {
        return;
      }
      var player := if left then Player1 else Player2;
      buffer[index] := player;
    }

    /** game_update: apply the input, then recompute the state. */
    method Update(left: bool, right: bool, px: int, py: int)
      requires Valid()
      requires left || right ==> InWindow(px) && InWindow(py)
      modifies this, buffer
      ensures buffer == old(buffer)
      ensures Valid() && StateIsCurrent()
      ensures buffer[..] == Move(old(buffer[..]), left, right, px, py)
      ensures IsRunning() <==> !HasLine(buffer[..], Player1) && !HasLine(buffer[..], Player2)
    {
      Input(left, right, px, py);
      state := CurrentGameState();
    }

    /** game_is_running: the state is UNFINISHED; with a current state, exactly when nobody owns a line. */
    function IsRunning(): (r: bool)
      reads this, buffer
      ensures r <==> state != Player1Won && state != Player2Won && state != Draw
      ensures Valid() && StateIsCurrent() ==>
        (r <==> !HasLine(buffer[..], Player1) && !HasLine(buffer[..], Player2))
    {
      state == Unfinished
    }
  }
}
