/** Window geometry of the tic-tac-toe game (game/include/game.h).
    All values are C integer expressions, so the divisions truncate. */
module Window {

  /** Side of the square window, in pixels. */
  const WindowSize: int := 640

  /** Side of one board cell: `WINDOW_SIZE / 3`, that is 213. */
  const CellSize: int := WindowSize / 3

  /** Left (or top) edges of the three thirds of the window. */
  const FirstThird: int := 0
  const SecondThird: int := WindowSize / 3
  /** The macro expands to `2 * WINDOW_SIZE / 3`, which is 426, the same as `2 * SecondThird`. */
  const ThirdThird: int := 2 * WindowSize / 3

  /** A pixel coordinate inside the window. */
  predicate InWindow(p: int) {
    0 <= p < WindowSize
  }
}
