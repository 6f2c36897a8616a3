/**
 * The event loop of dataset_builders/play_positions.py as written: after a
 * move is committed (or the window is closed) the remaining events of the
 * same poll of the event queue are still handled, against the board the
 * move was pushed on and with the stale table row.  A fast enough
 * select-and-move inside that poll writes a second record that carries the
 * previous row's FEN.  `Session.Batch` is the corrected loop, which leaves the
 * poll as soon as `move_made` is set.
 */
module BatchFinding {
  import opened Options
  import opened Chess
  import opened Material
  import opened Sampler
  import opened Mouse
  import opened Session

  /**
   * How a poll of the unguarded loop ends: every event handled, or a "Go
   * Back" past the end of the position table.  There the source first pops
   * the last of the in-memory `records` and rewrites the output table to the
   * shorter list, and only then does the row lookup raise and stop the
   * script; `persisted` is the table left on disk.
   */
  datatype PollOutcome = Completed(state: State) | Raised(records: seq<Labelled>, persisted: seq<Labelled>)

  /**
   * Every event of the poll goes through `Step`, whatever happened before.
   * While the poll completes, the cursor still counts the records and the
   * file still holds them; only the link between records and rows is lost.
   */
  function BatchAsWritten(rows: seq<Position>, rules: Rules, s: State, events: seq<Event>): (r: PollOutcome)
    requires 0 <= s.index
    requires forall e :: e in events ==> ValidEvent(e)
    ensures r.Completed? ==> 0 <= r.state.index <= s.index + |events|
    ensures s.index + |events| <= |rows| ==> r.Completed?
    ensures (forall e :: e in events ==> !IsGoBack(e)) ==> r.Completed?
    ensures r.Raised? ==> |r.records| > 0 && r.persisted == r.records[..|r.records| - 1]
    ensures s.index == |s.labeled| && s.persisted == s.labeled && r.Completed? ==>
              r.state.index == |r.state.labeled| && r.state.persisted == r.state.labeled
    ensures s.index == |s.labeled| && r.Raised? ==> |r.records| > |rows|
    decreases |events|
  {
    if events == [] then Completed(s)
    else if GoBackPastEnd(rows, s, events[0]) then Raised(s.labeled, s.labeled[..|s.labeled| - 1])
    else BatchAsWritten(rows, rules, Step(rows, rules, s, events[0]), events[1..])
  }

  /** A board with a single pawn of `c` on `sq` that can move to `to`. */
  function OnePawn(c: Color, sq: Square, to: Square): Board
  {
    Board(seq(64, i => if i == sq then Some(Piece(Pawn, c)) else None), c, [Move(sq, to, None)])
  }

  function Row(fen: string): Position
  {
    Position(fen, Opening, 6, White, 0)
  }

  function LeftClick(x: int, y: int, at: int): Event
  {
    MouseDown(x, y, 1, at)
  }

  // ----- a concrete trace -----

  function Rows(): seq<Position>
  {
    [Row("r0"), Row("r1"), Row("r2"), Row("r3"), Row("r4")]
  }

  /** Decoding any FEN gives White's one-pawn board; any move leads to Black's. */
  function TheRules(): Rules
  {
    Rules((b: Board, m: Move) => m in b.legal, (b, m) => OnePawn(Black, 52, 36), b => false, b => "",
          f => OnePawn(White, 12, 28), m => "m")
  }

  function Clicks(): seq<Event>
  {
    [LeftClick(360, 550, 100), LeftClick(360, 390, 200), LeftClick(280, 550, 300),
     LeftClick(280, 550, 400), LeftClick(280, 390, 500)]
  }

  function S0(): State
  {
    State(0, [], [], true, false, Row("r0"), OnePawn(White, 12, 28), None, [], NoMessage, 0)
  }

  function S1(): State { S0().(fromSquare := Some(12), legalSquares := [28]) }

  function S2(): State
  {
    var labeled := [Record(Row("r0"), "m", 200)];
    S1().(board := OnePawn(Black, 52, 36), labeled := labeled, persisted := labeled, index := 1, moveMade := true)
  }

  function S3(): State { S2().(fromSquare := None, legalSquares := [], message := IllegalMove) }

  function S4(): State { S3().(fromSquare := Some(52), legalSquares := [36], message := NoMessage) }

  function S5(): State
  {
    var labeled := [Record(Row("r0"), "m", 200), Record(Row("r0"), "m", 500)];
    S4().(labeled := labeled, persisted := labeled, index := 2)
  }

  lemma StartsAtS0()
    ensures Start(Rows(), TheRules(), Missing, 0) == Running(S0())
  {
  }

  lemma SelectWhitePawn()
    ensures Step(Rows(), TheRules(), S0(), Clicks()[0]) == S1()
  {
    assert SquareFromMouse(360, 550, false) == 12;
    assert HoldsPieceToMove(OnePawn(White, 12, 28), 12);
  }

  lemma MoveWhitePawn()
    ensures Step(Rows(), TheRules(), S1(), Clicks()[1]) == S2()
  {
    assert SquareFromMouse(360, 390, false) == 28;
    assert Move(12, 28, None) in OnePawn(White, 12, 28).legal;
  }

  lemma StaleSelectionRejected()
    ensures Step(Rows(), TheRules(), S2(), Clicks()[2]) == S3()
  {
    assert SquareFromMouse(280, 550, true) == 52;
    assert Move(12, 52, None) !in OnePawn(Black, 52, 36).legal;
  }

  lemma SelectBlackPawn()
    ensures Step(Rows(), TheRules(), S3(), Clicks()[3]) == S4()
  {
    assert SquareFromMouse(280, 550, true) == 52;
    assert HoldsPieceToMove(OnePawn(Black, 52, 36), 52);
  }

  lemma MoveBlackPawn()
    ensures Step(Rows(), TheRules(), S4(), Clicks()[4]) == S5()
  {
    assert SquareFromMouse(280, 390, true) == 36;
    assert Move(52, 36, None) in OnePawn(Black, 52, 36).legal;
  }

  lemma AsWrittenTrace()
    ensures BatchAsWritten(Rows(), TheRules(), S0(), Clicks()) == Completed(S5())
  {
    var rows, rules, cs := Rows(), TheRules(), Clicks();
    SelectWhitePawn();
    MoveWhitePawn();
    StaleSelectionRejected();
    SelectBlackPawn();
    MoveBlackPawn();
    assert cs[1..] == [cs[1], cs[2], cs[3], cs[4]];
    assert cs[1..][1..] == [cs[2], cs[3], cs[4]];
    assert cs[1..][1..][1..] == [cs[3], cs[4]];
    assert cs[1..][1..][1..][1..] == [cs[4]];
    assert BatchAsWritten(rows, rules, S4(), [cs[4]]) == Completed(S5());
    assert BatchAsWritten(rows, rules, S3(), [cs[3], cs[4]]) == Completed(S5());
    assert BatchAsWritten(rows, rules, S2(), [cs[2], cs[3], cs[4]]) == Completed(S5());
    assert BatchAsWritten(rows, rules, S1(), cs[1..]) == Completed(S5());
  }

  lemma CorrectedTrace()
    ensures Consistent(Rows(), TheRules(), S0())
    ensures Batch(Rows(), TheRules(), S0(), Clicks()) == S2()
  {
    StartsAtS0();
    SelectWhitePawn();
    MoveWhitePawn();
    var cs := Clicks();
    assert Batch(Rows(), TheRules(), S1(), cs[1..]) == Batch(Rows(), TheRules(), S2(), cs[1..][1..]);
  }

  /**
   * Closing the window does not end the poll either: a select-and-move that
   * follows in the same poll still commits and writes a record, while the
   * corrected loop writes nothing after the close.
   */
  lemma QuitDoesNotStopThePoll()
    ensures var asWritten := BatchAsWritten(Rows(), TheRules(), S0(), [Quit, Clicks()[0], Clicks()[1]]);
            asWritten.Completed? && !asWritten.state.running && |asWritten.state.labeled| == 1
    ensures Consistent(Rows(), TheRules(), S0())
    ensures Batch(Rows(), TheRules(), S0(), [Quit, Clicks()[0], Clicks()[1]]).labeled == []
  {
    var rows, rules, cs := Rows(), TheRules(), Clicks();
    var events := [Quit, cs[0], cs[1]];
    var q := S0().(running := false, moveMade := true);
    assert Step(rows, rules, S0(), Quit) == q;
    assert SquareFromMouse(360, 550, false) == 12;
    assert HoldsPieceToMove(OnePawn(White, 12, 28), 12);
    assert Step(rows, rules, q, cs[0]) == S1().(running := false, moveMade := true);
    assert SquareFromMouse(360, 390, false) == 28;
    assert Move(12, 28, None) in OnePawn(White, 12, 28).legal;
    assert Step(rows, rules, S1().(running := false, moveMade := true), cs[1]) == S2().(running := false);
    assert events[1..] == [cs[0], cs[1]];
    assert events[1..][1..] == [cs[1]];
    var done := S2().(running := false);
    assert BatchAsWritten(rows, rules, S1().(running := false, moveMade := true), [cs[1]]) == Completed(done);
    assert BatchAsWritten(rows, rules, q, [cs[0], cs[1]]) == Completed(done);
    StartsAtS0();
  }

  /**
   * White plays e2-e4 (squares 12 to 28) and, inside the same poll, the
   * clicks go on: one is rejected against the stale selection, then Black's
   * pawn on e7 (square 52, board now flipped) is selected and moved to e5
   * (square 36).  The as-written loop stores two records, the second one
   * claiming table row 0's FEN at index 1; the corrected loop stores one
   * record, which describes its row.
   */
  lemma SecondRecordInOnePoll()
    ensures var asWritten := BatchAsWritten(Rows(), TheRules(), S0(), Clicks());
            && asWritten.Completed?
            && |asWritten.state.labeled| == 2 && asWritten.state.labeled[1].fen == "r0" != Rows()[1].fen
            && !Aligned(Rows(), TheRules(), [], asWritten.state)
    ensures Consistent(Rows(), TheRules(), S0())
    ensures var corrected := Batch(Rows(), TheRules(), S0(), Clicks());
            && |corrected.labeled| == 1 && Aligned(Rows(), TheRules(), [], corrected)
  {
    AsWrittenTrace();
    CorrectedTrace();
    assert !Describes(TheRules(), S5().labeled[1], Rows()[1]);
    assert TheRules().isLegal(TheRules().decode("r0"), Move(12, 28, None));
    assert Describes(TheRules(), S2().labeled[0], Rows()[0]);
  }
}
