/**
 * Piece values, material balance and game-phase classification of a board
 * (dataset_builders/extract_positions.py: the piece-value table, the
 * material-difference helper and the phase classifier).
 */
module Material {
  import opened Options
  import opened Chess

  datatype Phase = Opening | Middlegame | Endgame

  /**
   * The value table: pawn 1, knight and bishop 3, rook 5, queen 9.  The king
   * has no entry, and a missing entry counts 0.
   */
  function PieceValue(kind: PieceType): (r: nat)
    ensures r == 0 <==> kind == King
    ensures r <= 9
  {
    match kind
    case Pawn => 1
    case Knight => 3
    case Bishop => 3
    case Rook => 5
    case Queen => 9
    case King => 0
  }

  /** What the content of one square adds to the material of side `c`. */
  function Contribution(sq: Option<Piece>, c: Color): nat
  {
    if sq.Some? && sq.value.color == c then PieceValue(sq.value.kind) else 0
  }

  /** The summed value of the pieces of side `c` on `squares`. */
  function SideMaterial(squares: seq<Option<Piece>>, c: Color): nat
  {
    if squares == [] then 0 else Contribution(squares[0], c) + SideMaterial(squares[1..], c)
  }

  /** The material balance: White's material minus Black's. */
  function MaterialDiff(b: Board): int
  {
    SideMaterial(b.squares, White) - SideMaterial(b.squares, Black)
  }

  /** Queens, rooks, bishops and knights: the pieces the phase classifier counts. */
  predicate Impactful(sq: Option<Piece>)
  {
    sq.Some? && sq.value.kind in {Queen, Rook, Bishop, Knight}
  }

  /** The number of impactful pieces of either colour on `squares`. */
  function ImpactfulCount(squares: seq<Option<Piece>>): nat
  {
    if squares == [] then 0
    else (if Impactful(squares[0]) then 1 else 0) + ImpactfulCount(squares[1..])
  }

  /** The move number below which every position is an opening. */
  const OpeningMoves := 10
  /** The most impactful pieces an endgame position may hold. */
  const EndgamePieces := 6

  /** The game phase of board `b` reached at move number `moveNumber`. */
  function ClassifyPhase(b: Board, moveNumber: int): (r: Phase)
    ensures moveNumber < OpeningMoves <==> r == Opening
    ensures r == Endgame <==> moveNumber >= OpeningMoves && ImpactfulCount(b.squares) <= EndgamePieces
    ensures r == Middlegame <==> moveNumber >= OpeningMoves && ImpactfulCount(b.squares) > EndgamePieces
  {
    if moveNumber < OpeningMoves then Opening
    else if ImpactfulCount(b.squares) <= EndgamePieces then Endgame
    else Middlegame
  }

  // ----- an independent reference: one signed sum over the board -----

  /** The signed value of one square: positive for White, negative for Black. */
  function SignedValue(sq: Option<Piece>): int
  {
    match sq
    case None => 0
    case Some(p) => if p.color == White then PieceValue(p.kind) else -(PieceValue(p.kind) as int)
  }

  function SignedSum(squares: seq<Option<Piece>>): int
  {
    if squares == [] then 0 else SignedValue(squares[0]) + SignedSum(squares[1..])
  }

  /** The material balance is the sum of the signed piece values, square by square. */
  lemma {:induction false} SideMaterialDiffIsSignedSum(squares: seq<Option<Piece>>)
    ensures SideMaterial(squares, White) - SideMaterial(squares, Black) == SignedSum(squares)
    decreases |squares|
  {
    if squares != [] {
      SideMaterialDiffIsSignedSum(squares[1..]);
    }
  }

  lemma MaterialDiffIsSignedSum(b: Board)
    ensures MaterialDiff(b) == SignedSum(b.squares)
  {
    SideMaterialDiffIsSignedSum(b.squares);
  }

  // ----- a second reference: piece counts weighted by the table -----

  /** How many pieces of kind `kind` and colour `c` stand on `squares`. */
  function CountOf(squares: seq<Option<Piece>>, kind: PieceType, c: Color): nat
  {
    if squares == [] then 0
    else (if squares[0] == Some(Piece(kind, c)) then 1 else 0) + CountOf(squares[1..], kind, c)
  }

  /**
   * The material of a side is its pawns plus three per knight and bishop,
   * five per rook and nine per queen; its king adds nothing.
   */
  lemma {:induction false} SideMaterialByKind(squares: seq<Option<Piece>>, c: Color)
    ensures SideMaterial(squares, c) == CountOf(squares, Pawn, c) + 3 * CountOf(squares, Knight, c)
      + 3 * CountOf(squares, Bishop, c) + 5 * CountOf(squares, Rook, c) + 9 * CountOf(squares, Queen, c)
    decreases |squares|
  {
    if squares != [] {
      SideMaterialByKind(squares[1..], c);
    }
  }

  /** The balance weighs each kind's count difference by the table's value. */
  lemma MaterialDiffByKind(b: Board)
    ensures var s := b.squares;
            MaterialDiff(b) == (CountOf(s, Pawn, White) - CountOf(s, Pawn, Black))
              + 3 * (CountOf(s, Knight, White) - CountOf(s, Knight, Black))
              + 3 * (CountOf(s, Bishop, White) - CountOf(s, Bishop, Black))
              + 5 * (CountOf(s, Rook, White) - CountOf(s, Rook, Black))
              + 9 * (CountOf(s, Queen, White) - CountOf(s, Queen, Black))
  {
    SideMaterialByKind(b.squares, White);
    SideMaterialByKind(b.squares, Black);
  }

  // ----- colour swap -----

  function Opposite(c: Color): Color
  {
    if c == White then Black else White
  }

  /** The content of a square with the piece's colour exchanged. */
  function SwapSquare(sq: Option<Piece>): Option<Piece>
  {
    match sq
    case None => None
    case Some(p) => Some(Piece(p.kind, Opposite(p.color)))
  }

  /** The same placement with every piece's colour exchanged. */
  function SwapColors(squares: seq<Option<Piece>>): (r: seq<Option<Piece>>)
    ensures |r| == |squares|
    ensures forall i :: 0 <= i < |squares| ==> r[i] == SwapSquare(squares[i])
  {
    if squares == [] then [] else [SwapSquare(squares[0])] + SwapColors(squares[1..])
  }

  lemma {:induction false} SwapColorsSideMaterial(squares: seq<Option<Piece>>, c: Color)
    ensures SideMaterial(SwapColors(squares), c) == SideMaterial(squares, Opposite(c))
    decreases |squares|
  {
    if squares != [] {
      SwapColorsSideMaterial(squares[1..], c);
      assert SwapColors(squares)[1..] == SwapColors(squares[1..]);
    }
  }

  lemma {:induction false} SwapColorsImpactfulCount(squares: seq<Option<Piece>>)
    ensures ImpactfulCount(SwapColors(squares)) == ImpactfulCount(squares)
    decreases |squares|
  {
    if squares != [] {
      SwapColorsImpactfulCount(squares[1..]);
      assert SwapColors(squares)[1..] == SwapColors(squares[1..]);
    }
  }

  /** Exchanging the colours of all pieces negates the material balance. */
  lemma MaterialDiffSwapColors(b: Board, turn: Color)
    ensures MaterialDiff(Board(SwapColors(b.squares), turn, b.legal)) == -MaterialDiff(b)
  {
    SwapColorsSideMaterial(b.squares, White);
    SwapColorsSideMaterial(b.squares, Black);
  }

  /** Exchanging the colours of all pieces leaves the phase unchanged. */
  lemma PhaseSwapColors(b: Board, turn: Color, moveNumber: int)
    ensures ClassifyPhase(Board(SwapColors(b.squares), turn, b.legal), moveNumber) == ClassifyPhase(b, moveNumber)
  {
    SwapColorsImpactfulCount(b.squares);
  }

  // ----- removing a piece -----

  lemma {:induction false} ClearSquareSideMaterial(squares: seq<Option<Piece>>, i: nat, c: Color)
    requires i < |squares|
    ensures SideMaterial(squares[i := None], c) == SideMaterial(squares, c) - Contribution(squares[i], c)
    decreases |squares|
  {
    if i > 0 {
      ClearSquareSideMaterial(squares[1..], i - 1, c);
      assert squares[i := None][1..] == squares[1..][i - 1 := None];
    }
  }

  lemma {:induction false} ClearSquareImpactfulCount(squares: seq<Option<Piece>>, i: nat)
    requires i < |squares|
    ensures ImpactfulCount(squares[i := None]) == ImpactfulCount(squares) - (if Impactful(squares[i]) then 1 else 0)
    decreases |squares|
  {
    if i > 0 {
      ClearSquareImpactfulCount(squares[1..], i - 1);
      assert squares[i := None][1..] == squares[1..][i - 1 := None];
    }
  }

  /** Taking one of Black's queens off the board raises the balance by exactly 9. */
  lemma RemoveBlackQueen(b: Board, sq: Square)
    requires sq < |b.squares| && b.squares[sq] == Some(Piece(Queen, Black))
    ensures MaterialDiff(b.(squares := b.squares[sq := None])) == MaterialDiff(b) + 9
  {
    ClearSquareSideMaterial(b.squares, sq, White);
    ClearSquareSideMaterial(b.squares, sq, Black);
  }

  /** Removing a piece never turns an endgame back into a middlegame. */
  lemma EndgameSurvivesCapture(b: Board, sq: Square, moveNumber: int)
    requires sq < |b.squares|
    requires ClassifyPhase(b, moveNumber) == Endgame
    ensures ClassifyPhase(b.(squares := b.squares[sq := None]), moveNumber) == Endgame
  {
    ClearSquareImpactfulCount(b.squares, sq);
  }

  /** Below move 10 the phase is the opening whatever stands on the board. */
  lemma OpeningWhateverTheBoard(b1: Board, b2: Board, moveNumber: int)
    requires moveNumber < OpeningMoves
    ensures ClassifyPhase(b1, moveNumber) == ClassifyPhase(b2, moveNumber) == Opening
  {
  }

  // ----- the starting position -----

  lemma {:induction false} SideMaterialAppend(a: seq<Option<Piece>>, b: seq<Option<Piece>>, c: Color)
    ensures SideMaterial(a + b, c) == SideMaterial(a, c) + SideMaterial(b, c)
    decreases |a|
  {
    if a == [] {
      assert a + b == b;
    } else {
      SideMaterialAppend(a[1..], b, c);
      assert (a + b)[1..] == a[1..] + b;
    }
  }

  function BackRank(c: Color): seq<Option<Piece>>
  {
    [Some(Piece(Rook, c)), Some(Piece(Knight, c)), Some(Piece(Bishop, c)), Some(Piece(Queen, c)),
     Some(Piece(King, c)), Some(Piece(Bishop, c)), Some(Piece(Knight, c)), Some(Piece(Rook, c))]
  }

  function PawnRank(c: Color): seq<Option<Piece>>
  {
    var p := Some(Piece(Pawn, c));
    [p, p, p, p, p, p, p, p]
  }

  function EmptyRanks(): seq<Option<Piece>>
  {
    var e := [None, None, None, None, None, None, None, None];
    e + e + e + e
  }

  lemma EmptyRanksHoldNoMaterial(c: Color)
    ensures SideMaterial(EmptyRanks(), c) == 0
  {
    var e: seq<Option<Piece>> := [None, None, None, None, None, None, None, None];
    RankMaterial(e, c);
    SideMaterialAppend(e + e + e, e, c);
    SideMaterialAppend(e + e, e, c);
    SideMaterialAppend(e, e, c);
  }

  /** The placement of the standard starting position, a1 first. */
  function StartSquares(): (r: seq<Option<Piece>>)
    ensures |r| == 64
  {
    (BackRank(White) + PawnRank(White)) + EmptyRanks() + (PawnRank(Black) + BackRank(Black))
  }

  lemma SuffixMaterial(r: seq<Option<Piece>>, k: nat, c: Color)
    requires k < |r|
    ensures SideMaterial(r[k..], c) == Contribution(r[k], c) + SideMaterial(r[k + 1..], c)
  {
    assert r[k..][1..] == r[k + 1..];
  }

  /** The material of side `c` on one rank of eight squares. */
  lemma RankMaterial(r: seq<Option<Piece>>, c: Color)
    requires |r| == 8
    ensures SideMaterial(r, c) == Contribution(r[0], c) + Contribution(r[1], c) + Contribution(r[2], c)
      + Contribution(r[3], c) + Contribution(r[4], c) + Contribution(r[5], c) + Contribution(r[6], c) + Contribution(r[7], c)
  {
    assert r[0..] == r;
    assert r[8..] == [];
    SuffixMaterial(r, 0, c);
    SuffixMaterial(r, 1, c);
    SuffixMaterial(r, 2, c);
    SuffixMaterial(r, 3, c);
    SuffixMaterial(r, 4, c);
    SuffixMaterial(r, 5, c);
    SuffixMaterial(r, 6, c);
    SuffixMaterial(r, 7, c);
  }

  /** A back rank is worth 31 to its own side and nothing to the other. */
  lemma BackRankMaterial(c: Color, side: Color)
    ensures SideMaterial(BackRank(c), side) == if side == c then 31 else 0
  {
    RankMaterial(BackRank(c), side);
  }

  /** A rank of pawns is worth 8 to its own side and nothing to the other. */
  lemma PawnRankMaterial(c: Color, side: Color)
    ensures SideMaterial(PawnRank(c), side) == if side == c then 8 else 0
  {
    RankMaterial(PawnRank(c), side);
  }

  lemma StartSideMaterial(c: Color)
    ensures SideMaterial(StartSquares(), c) == 39
  {
    var w, k := BackRank(White) + PawnRank(White), PawnRank(Black) + BackRank(Black);
    BackRankMaterial(White, c);
    BackRankMaterial(Black, c);
    PawnRankMaterial(White, c);
    PawnRankMaterial(Black, c);
    EmptyRanksHoldNoMaterial(c);
    SideMaterialAppend(BackRank(White), PawnRank(White), c);
    SideMaterialAppend(PawnRank(Black), BackRank(Black), c);
    SideMaterialAppend(w, EmptyRanks(), c);
    SideMaterialAppend(w + EmptyRanks(), k, c);
  }

  /** In the starting position neither side is ahead in material. */
  lemma StartPositionBalanced(turn: Color, legal: seq<Move>)
    ensures MaterialDiff(Board(StartSquares(), turn, legal)) == 0
  {
    StartSideMaterial(White);
    StartSideMaterial(Black);
  }

  /** The starting position without Black's queen (on d8) has a balance of 9. */
  lemma StartWithoutBlackQueen(turn: Color, legal: seq<Move>)
    ensures MaterialDiff(Board(StartSquares()[59 := None], turn, legal)) == 9
  {
    var b := Board(StartSquares(), turn, legal);
    assert b.squares[59] == Some(Piece(Queen, Black));
    StartPositionBalanced(turn, legal);
    RemoveBlackQueen(b, 59);
  }
}
