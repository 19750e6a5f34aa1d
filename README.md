# Tic-tac-toe board state machine

This project is a Dafny model of the board logic of a small raylib tic-tac-toe game.
The game keeps a `Game` record: a 9-cell character buffer (`'X'` for player 1, `'O'` for
player 2, `'_'` for a blank) and a `GameState` (player 1 won, player 2 won, draw,
unfinished). A mouse press writes a mark into the blank cell under the pointer. The left
button writes `'X'`, the right button alone writes `'O'`. After each input the state is
recomputed by scanning the eight winning lines. The game keeps running while the state is
unfinished.

Files:

- `window.dfy` (module `Window`) holds the window geometry constants of `game/include/game.h`:
  a 640-pixel window, cells of 213 pixels, thirds starting at 0, 213 and 426.
- `game.dfy` (module `TicTacToe`) holds the model of `game/source/game.c`. The pure part
  works on the board as a `seq<char>`. It has the two index macros, the line checks, `StateOf`
  (what `current_game_state` reports) and `Move` (what `game_input` does to the board).
  The class `TicTacToe.Game` holds the buffer as an `array<char>` and the state as a field.
  Its methods do what the C functions do in place, and each is proved against the pure
  functions. `HavePlayerWon` keeps the source's scan order: both diagonals, then row and
  column `index` for each index. It is proved equal to "some line of the eight listed
  index triples belongs to the player".

Two properties of the code are worth stating up front:

- `GameState` has a draw value (`GAME_STATE_DRAW`, game/source/game.c:21), but
  `current_game_state` never returns it. The draw check is an open TODO (game.c:220), so a
  full board with no line stays unfinished.
- There are no turns. The button chooses the mark (game.c:243-244), and `struct Game` has no
  field that records whose turn it is (game.c:25-28).

Mouse input is passed in as parameters: whether each button is pressed and the pointer
position in whole pixels. The pointer must lie inside the window only when a button is
pressed, because that is the only case in which the code reads the position.

## Model

| member | source | states |
|---|---|---|
| `TicTacToe.Index2D1D` | game/source/game.c:14 | a column and row on the board give an index in 0..8 |
| `TicTacToe.Index1D2D` | game/source/game.c:15-16 | an index in 0..8 gives a column and row on the board |
| `TicTacToe.IndexRoundTrip2D` | game/source/game.c:14-16 | for x, y in 0..2, mapping (x, y) to an index and back gives (x, y) |
| `TicTacToe.IndexRoundTrip1D` | game/source/game.c:14-16 | for i in 0..8, mapping i to (x, y) and back gives i |
| `TicTacToe.BlankCountAllBlank` | game/source/game.c:35-37 | a board of blanks has as many blanks as cells |
| `TicTacToe.BlankCountMark` | game/source/game.c:246 | writing a mark into one blank cell lowers the blank count by exactly one |
| `TicTacToe.CellsAreEqual` | game/source/game.c:139-143 | true iff all three cells hold the given symbol |
| `TicTacToe.RowCellsAreEqual` | game/source/game.c:145-154 | true iff every cell whose row is `row` holds the symbol |
| `TicTacToe.ColumnCellsAreEqual` | game/source/game.c:156-165 | true iff every cell whose column is `column` holds the symbol |
| `TicTacToe.PrimaryDiagonalCellsAreEqual` | game/source/game.c:167-176 | true iff every cell with x == y holds the symbol |
| `TicTacToe.SecondaryDiagonalCellsAreEqual` | game/source/game.c:178-187 | true iff every cell with x + y == 2 holds the symbol |
| `TicTacToe.ScanCoversWinningLines` | game/source/game.c:189-209 | the diagonal, row and column checks together hold iff one of the eight listed lines (rows 012, 345, 678; columns 036, 147, 258; diagonals 048, 642) is all the player's |
| `TicTacToe.Game.HavePlayerWon` | game/source/game.c:189-209 | the scan returns true iff the player owns at least one of the eight lines |
| `TicTacToe.StateOf` | game/source/game.c:211-223 | never a draw; player 1 won whenever X has a line; player 2 won iff only O has one; unfinished iff neither has one |
| `TicTacToe.Game.CurrentGameState` | game/source/game.c:211-223 | the state returned is the one `StateOf` gives for the buffer |
| `TicTacToe.Player1TakesPrecedence` | game/source/game.c:212-218 | on every board where both X and O own a line, player 1 is reported as the winner |
| `TicTacToe.BothPlayersOwnALine` | game/source/game.c:212-218 | the board XXX/OOO/___ gives both players a line and is reported as a player 1 win |
| `TicTacToe.WinWithTwoLines` | game/source/game.c:189-213 | a winning board can complete two lines at once; it is still a player 1 win |
| `TicTacToe.FullBoardIsUnfinished` | game/source/game.c:220-222 | every well-formed full board on which no player owns a line is reported as unfinished, not as a draw |
| `TicTacToe.FullBoardWithoutLine` | game/source/game.c:220-222 | the full board XOX/XOO/OXX has no line and is reported as unfinished |
| `TicTacToe.ColumnAt` | game/source/game.c:233 | an in-window pixel column maps to the board column c with c*640 <= 3*px < (c+1)*640 |
| `TicTacToe.RowAt` | game/source/game.c:235 | an in-window pixel row maps to the board row r with r*640 <= 3*py < (r+1)*640 |
| `TicTacToe.ClickedCell` | game/source/game.c:233-237 | the clicked index is in 0..8 and sits at the column and row under the pointer |
| `TicTacToe.Move` | game/source/game.c:225-247 | no button: board unchanged; every cell but the clicked one unchanged; the clicked cell gets X (left pressed) or O (right only) if it was blank, else keeps its mark; no mark is ever overwritten |
| `TicTacToe.MoveKeepsWellFormed` | game/source/game.c:239-246 | a move keeps every cell one of X, O and blank |
| `TicTacToe.MoveBlankCount` | game/source/game.c:239-246 | a move leaves the blank count unchanged or lowers it by exactly one, the latter iff the board changed |
| `TicTacToe.MoveKeepsLine` | game/source/game.c:239-241 | a line a player owns is still owned after any move |
| `TicTacToe.Player1WinIsFinal` | game/source/game.c:211-247 | once player 1 has won, no move changes the reported state |
| `TicTacToe.Player2WinCanBeOverturned` | game/source/game.c:211-253 | a player 2 win is not final: from XX_/OOO/___ a left click at (500, 0) fills the top-right cell and the state becomes a player 1 win; only the caller's frame loop stops after a win |
| `TicTacToe.CurrentCellThird` | game/source/game.c:81-91 | 0 for points below 213, 213 for points in 213..425, 426 from 426 on |
| `TicTacToe.CurrentCellThirdMonotone` | game/source/game.c:81-91 | the third grows with the point |
| `TicTacToe.HoverMissesClickedCell` | game/source/game.c:81-91 | at pixels 213 and 426 the highlighted third is one column right of the column a click marks |
| `TicTacToe.HoverCellThirdDiffersOnlyAtBoundaries` | game/source/game.c:81-91 | for every pixel in the window, the corrected edge equals `current_cell_third` except at pixels 213 and 426 |
| `TicTacToe.HoverCellThird` | game/source/game.c:100-102 | the corrected highlight edge is the third of the column a click at that point maps to |
| `TicTacToe.HoverMatchesClickedCell` | game/source/game.c:100-102 | the corrected highlight sits exactly on the cell a click at the same position marks, on both axes |
| `TicTacToe.Game.constructor` | game/source/game.c:30-42 | a fresh buffer of nine blanks, state unfinished, the state current, and the game running |
| `TicTacToe.Game.Input` | game/source/game.c:225-247 | the buffer becomes `Move` of the old buffer, stays well formed, and its blank count does not grow |
| `TicTacToe.Game.Update` | game/source/game.c:249-253 | the buffer becomes `Move` of the old buffer and the state becomes `StateOf` of the new buffer; the game runs iff nobody owns a line |
| `TicTacToe.Game.IsRunning` | game/source/game.c:255-257 | true iff the state is unfinished; with a current state, iff neither player owns a line |

## Left out

- Rendering (`draw_game_board`, `draw_player_1`, `draw_player_2`, `draw_hover`, `game_draw`):
  these are only raylib draw calls and change no state. Only the pure `current_cell_third`
  they use is modelled.
- raylib input polling (`IsMouseButtonPressed`, `GetMousePosition`, `IsCursorOnScreen`):
  these become the parameters `left`, `right`, `px` and `py`.
- Floating-point mouse positions: the pointer is a whole pixel. For a whole pixel x in
  0..639, `(int)(3 * x / 640)` equals the integer quotient `3 * x / 640`. Sub-pixel positions
  are not modelled.
- Pointers outside the window: with a button pressed the position must be in 0..639 (the
  `InWindow` requirement of `Move`, `Input` and `Update`). The C code does not check this.
  A position of 640 or more gives column (or row) 3 or more, which selects the wrong cell or indexes past the
  buffer. The C cast truncates toward zero, so a position in -213..-1 gives column (or row) 0,
  a valid cell. The model excludes those positions rather than reproducing that truncation.
- `malloc`/`free` and `game_destruct`: the buffer is a Dafny array, and memory is not
  modelled.
- The frame loop in `main/main.c`: it is window plumbing. It also calls `is_running`, which
  does not exist, and the `static` `game_input`.
- `WINDOW_OFFSET` and `WINDOW_HALF_OFFSET`: only the drawing code uses them, and no file shown
  defines them.
- `TicTacToe.Game.Input`: run on its own, it leaves `state` stale, so only `Update` promises
  that the state is current. game.c calls it only from `game_update` (game.c:250); main.c:15
  also calls it directly, which is left out with the frame loop.

## Findings

| source | as written | input that shows it | evidently intended | confidence | as-written member | corrected member |
|---|---|---|---|---|---|---|
| game/source/game.c:81-91 | the hover highlight switches thirds at pixels 213 and 426 (`WINDOW_SIZE / 3` and `2 * WINDOW_SIZE / 3`), but `game_input` maps a pixel p to cell `3 * p / 640`, which switches at 213.33 and 426.67 | pointer at x = 213: the highlight is on the second column, but a click marks the first. Likewise at x = 426 the highlight is on the third column and a click marks the second. The same happens on the y axis | a click marks the cell that is highlighted. The grid lines (game.c:51-57) and the marks (game.c:120, column times 213) are drawn at 213 and 426 too, so the highlight matches the drawing and the click mapping (game.c:233-235) is the odd one out. The fix can equally go into the click mapping; the corrected member instead moves the highlight onto the clicked cell, which changes it only at pixels 213 and 426 | medium; not executed | `TicTacToe.HoverMissesClickedCell` | `TicTacToe.HoverCellThird` |
