/**
 * Screen geometry of the labelling window (dataset_builders/play_positions.py):
 * a 30-pixel timer strip on top, the 640 x 640 board below it, and a 40-pixel
 * information strip at the bottom holding the "Go Back" button.  When Black
 * is to move the board is drawn flipped.
 */
module Mouse {
  import opened Chess

  const SquareSize := 80
  const WindowSize := SquareSize * 8
  const InfoHeight := 40
  const TimerHeight := 30

  /** The pixel lies on the drawn board. */
  predicate OnBoard(x: int, y: int)
  {
    0 <= x < WindowSize && TimerHeight <= y < TimerHeight + WindowSize
  }

  /**
   * The square under pixel (x, y).  The source's integer division rounds
   * down; Dafny's `/` by a positive divisor does too, so the arithmetic agrees
   * for every pixel.
   */
  function SquareFromMouse(x: int, y: int, flip: bool): (sq: int)
    ensures OnBoard(x, y) ==> 0 <= sq < 64
    ensures OnBoard(x, y) && !flip ==> sq % 8 == x / SquareSize && sq / 8 == 7 - (y - TimerHeight) / SquareSize
  {
    var file := x / SquareSize;
    var rank := 7 - (y - TimerHeight) / SquareSize;
    if flip then SquareAt(7 - file, 7 - rank) else SquareAt(file, rank)
  }

  /** The hit test of the "Go Back" button: a rectangle, all four edges included. */
  predicate ClickedGoBack(x: int, y: int)
  {
    WindowSize - 130 <= x <= WindowSize - 10 && WindowSize + TimerHeight + 5 <= y <= WindowSize + TimerHeight + 35
  }

  /** The flipped board maps every pixel to the square opposite the unflipped one. */
  lemma FlipMirrorsSquare(x: int, y: int)
    ensures SquareFromMouse(x, y, true) == 63 - SquareFromMouse(x, y, false)
  {
  }

  /** The button lies in the information strip, so a click on it is never a board click. */
  lemma GoBackIsOffBoard(x: int, y: int)
    requires ClickedGoBack(x, y)
    ensures !OnBoard(x, y)
  {
  }

  /**
   * The pixels the drawn button covers: a filled rectangle 120 wide and 30
   * high whose top-left corner is 130 pixels left of the window's right edge
   * and 5 below the board.  A filled rectangle covers its left and top edges
   * but not its right and bottom ones.
   */
  predicate ButtonPainted(x: int, y: int)
  {
    var left, top := WindowSize - 130, WindowSize + TimerHeight + 5;
    left <= x < left + 120 && top <= y < top + 30
  }

  /**
   * Every painted pixel of the button goes back, and so do exactly the
   * pixels of one more column on its right and one more row below it.
   */
  lemma GoBackHitArea(x: int, y: int)
    ensures ButtonPainted(x, y) ==> ClickedGoBack(x, y)
    ensures ClickedGoBack(x, y) && !ButtonPainted(x, y) <==>
      ClickedGoBack(x, y) && (x == WindowSize - 10 || y == WindowSize + TimerHeight + 35)
  {
  }

  /**
   * The square the board drawing paints in screen column `col` and screen
   * row `row` (row 0 at the top).
   */
  function DrawnSquare(col: int, row: int, flip: bool): int
  {
    var displayRank := if flip then row else 7 - row;
    var displayFile := if flip then 7 - col else col;
    SquareAt(displayFile, displayRank)
  }

  /**
   * Clicking anywhere inside the cell where the board drawing paints a square
   * selects that very square, in both orientations.
   */
  lemma ClickSelectsDrawnSquare(col: int, row: int, flip: bool, x: int, y: int)
    requires 0 <= col < 8 && 0 <= row < 8
    requires col * SquareSize <= x < (col + 1) * SquareSize
    requires TimerHeight + row * SquareSize <= y < TimerHeight + (row + 1) * SquareSize
    ensures OnBoard(x, y)
    ensures SquareFromMouse(x, y, flip) == DrawnSquare(col, row, flip)
  {
    DivInCell(x, col);
    DivInCell(y - TimerHeight, row);
  }

  lemma DivInCell(v: int, k: int)
    requires k * SquareSize <= v < (k + 1) * SquareSize
    ensures v / SquareSize == k
  {
  }

  /** Every square is drawn in exactly one cell, so each square can be clicked. */
  lemma EverySquareClickable(sq: Square, flip: bool)
    ensures var col := if flip then 7 - sq % 8 else sq % 8;
            var row := if flip then sq / 8 else 7 - sq / 8;
            DrawnSquare(col, row, flip) == sq
            && SquareFromMouse(col * SquareSize + SquareSize / 2, TimerHeight + row * SquareSize + SquareSize / 2, flip) == sq
  {
    var col := if flip then 7 - sq % 8 else sq % 8;
    var row := if flip then sq / 8 else 7 - sq / 8;
    ClickSelectsDrawnSquare(col, row, flip, col * SquareSize + SquareSize / 2, TimerHeight + row * SquareSize + SquareSize / 2);
  }
}
