/**
 * The slice of the chess rules library (python-chess) that the dataset
 * builders rely on.  A board is kept as plain data -- what is on each square,
 * whose turn it is and the list of legal moves the rules library reports for
 * it -- while the operations that need the full rules of chess (playing a
 * move, detecting the end of the game, reading and writing FEN text, move
 * notation) are supplied from outside as the fields of a `Rules` value.
 */
module Chess {
  import opened Options

  datatype Color = White | Black

  datatype PieceType = Pawn | Knight | Bishop | Rook | Queen | King

  datatype Piece = Piece(kind: PieceType, color: Color)

  /** Squares are numbered 0..63: a1 = 0, b1 = 1, ..., h8 = 63. */
  type Square = s: int | 0 <= s < 64

  /** The square on file `file` (0 = a) and rank `rank` (0 = the first rank). */
  function SquareAt(file: int, rank: int): int
  {
    rank * 8 + file
  }

  /** A move; the labelling tool builds moves without a promotion piece. */
  datatype Move = Move(from: Square, to: Square, promotion: Option<PieceType>)

  /**
   * A position as the dataset builders see it: `squares[s]` is the piece on
   * square `s` (a board has 64 entries), `turn` the side to move and `legal`
   * the legal moves in the order the rules library enumerates them.  Move
   * history (castling rights, the en-passant square, the move counters and
   * earlier positions) is not part of the value.
   */
  datatype Board = Board(squares: seq<Option<Piece>>, turn: Color, legal: seq<Move>)

  /** The content of square `sq`. */
  function PieceAt(b: Board, sq: Square): Option<Piece>
  {
    if sq < |b.squares| then b.squares[sq] else None
  }

  /** Square `sq` holds a piece of the side to move. */
  predicate HoldsPieceToMove(b: Board, sq: Square)
  {
    PieceAt(b, sq).Some? && PieceAt(b, sq).value.color == b.turn
  }

  /**
   * The operations of the rules library that the model does not look inside:
   * `push` plays a move, `isGameOver` tells whether the game has ended,
   * `fen` writes a board as FEN text, `decode` reads one back, `uci` writes a
   * move in UCI notation, and `isLegal` is the library's legality test for a
   * given move.  That test is wider than the enumeration in `Board.legal`: it
   * also accepts castling written as the king moving onto its own rook
   * (e1h1, e1a1, e8h8, e8a8), which the enumeration lists as e1g1 and so on.
   */
  datatype Rules = Rules(
    isLegal: (Board, Move) -> bool,
    push: (Board, Move) -> Board,
    isGameOver: Board -> bool,
    fen: Board -> string,
    decode: string -> Board,
    uci: Move -> string)

  /** The board reached by playing `moves` in order from `b`. */
  function Replay(rules: Rules, b: Board, moves: seq<Move>): Board
    decreases |moves|
  {
    if moves == [] then b else Replay(rules, rules.push(b, moves[0]), moves[1..])
  }
}
