/**
 * The labelling session (dataset_builders/play_positions.py): the tool shows
 * the positions of the position table one at a time, lets the user pick a
 * piece and a destination with the mouse, records the move together with the
 * time taken, and rewrites the whole output table after every change.  A
 * "Go Back" button drops the last record and shows its position again, and
 * a session resumes after the rows already present in the output table.
 *
 * The main loop's variables become one `State` value and each event a
 * transition.  The output table on disk is the `persisted` field: the value
 * most recently written.  Clock readings are integers in hundredths of a
 * second, carried by the mouse events.
 */
module Session {
  import opened Options
  import opened Chess
  import opened Material
  import opened Sampler
  import opened Mouse

  /** One row of the labelled table: a position row plus the user's move and think time. */
  datatype Labelled = Labelled(fen: string, phase: Phase, moveNumber: int, turn: Color, materialDiff: int,
                               yourMove: string, timeTaken: int)

  /** The notice shown in the information strip. */
  datatype Message = NoMessage | WentBack | AlreadyAtStart | InvalidPiece | SelectionCancelled | IllegalMove

  /**
   * A window event: a mouse press (button 1 is the left button) with its
   * pixel and the clock reading, the window being closed, or anything else.
   */
  datatype Event = MouseDown(x: int, y: int, button: int, at: int) | Quit | OtherEvent

  /**
   * The loop variables: the cursor `index` into the position table, the
   * records `labeled`, the table last written to disk, the `running` and
   * `moveMade` flags, and for the position on screen its table row, the board
   * shown, the selected square with its legal destinations, the notice and
   * the time the position's timer started.
   */
  datatype State = State(
    index: int,
    labeled: seq<Labelled>,
    persisted: seq<Labelled>,
    running: bool,
    moveMade: bool,
    row: Position,
    board: Board,
    fromSquare: Option<Square>,
    legalSquares: seq<Square>,
    message: Message,
    startTime: int)

  /** A left click lands either on the board or on the "Go Back" button. */
  predicate ValidEvent(e: Event)
  {
    e.MouseDown? && e.button == 1 ==> ClickedGoBack(e.x, e.y) || OnBoard(e.x, e.y)
  }

  predicate IsGoBack(e: Event)
  {
    e.MouseDown? && e.button == 1 && ClickedGoBack(e.x, e.y)
  }

  /** The destinations of the enumerated legal moves that start on `from`, in enumeration order. */
  function LegalTargets(moves: seq<Move>, from: Square): (r: seq<Square>)
    ensures |r| <= |moves|
    ensures forall t :: t in r <==> exists m :: m in moves && m.from == from && m.to == t
  {
    if moves == [] then []
    else
      var rest := LegalTargets(moves[1..], from);
      assert forall m :: m in moves[1..] ==> m in moves;
      if moves[0].from == from then [moves[0].to] + rest else rest
  }

  /** The record written for a move played from table row `row`. */
  function Record(row: Position, yourMove: string, timeTaken: int): (r: Labelled)
    ensures r.fen == row.fen && r.phase == row.phase && r.moveNumber == row.moveNumber
    ensures r.turn == row.turn && r.materialDiff == row.materialDiff
  {
    Labelled(row.fen, row.phase, row.moveNumber, row.turn, row.materialDiff, yourMove, timeTaken)
  }

  // ----- the transitions -----

  /** The top of the outer loop: show table row `index` with nothing selected. */
  function Enter(rows: seq<Position>, rules: Rules, s: State, at: int): (r: State)
    requires 0 <= s.index < |rows|
    ensures r.index == s.index && r.labeled == s.labeled && r.persisted == s.persisted && r.running == s.running
    ensures !r.moveMade && r.row == rows[s.index] && r.board == rules.decode(rows[s.index].fen)
    ensures r.fromSquare.None? && r.legalSquares == [] && r.message == NoMessage && r.startTime == at
  {
    var row := rows[s.index];
    s.(moveMade := false, row := row, board := rules.decode(row.fen), fromSquare := None,
       legalSquares := [], message := NoMessage, startTime := at)
  }

  /** A click on "Go Back". */
  function GoBack(rows: seq<Position>, rules: Rules, s: State, at: int): (r: State)
    requires 0 <= s.index
    requires s.index > 0 && |s.labeled| > 0 ==> s.index <= |rows|
    ensures s.index > 0 && |s.labeled| > 0 ==>
      && r.labeled == s.labeled[..|s.labeled| - 1]
      && r.index == s.index - 1
      && r.persisted == r.labeled
      && r.row == rows[r.index] && r.board == rules.decode(r.row.fen)
      && r.fromSquare.None? && r.legalSquares == [] && r.message == WentBack && r.startTime == at
      && r.running == s.running && r.moveMade == s.moveMade
    ensures !(s.index > 0 && |s.labeled| > 0) ==> r == s.(message := AlreadyAtStart)
  {
    if s.index > 0 && |s.labeled| > 0 then
      var labeled := s.labeled[..|s.labeled| - 1];
      var row := rows[s.index - 1];
      s.(index := s.index - 1, labeled := labeled, persisted := labeled, row := row,
         board := rules.decode(row.fen), message := WentBack, fromSquare := None,
         legalSquares := [], startTime := at)
    else
      s.(message := AlreadyAtStart)
  }

  /** Playing the legal move `move`: append its record, write the table, advance. */
  function Commit(rules: Rules, s: State, move: Move, at: int): (r: State)
    ensures r.labeled == s.labeled + [Record(s.row, rules.uci(move), at - s.startTime)]
    ensures r.persisted == r.labeled && r.index == s.index + 1 && r.moveMade
    ensures r.running == s.running && r.board == rules.push(s.board, move) && r.row == s.row
  {
    var labeled := s.labeled + [Record(s.row, rules.uci(move), at - s.startTime)];
    s.(board := rules.push(s.board, move), labeled := labeled, persisted := labeled,
       index := s.index + 1, moveMade := true)
  }

  /** A click on board square `sq`. */
  function Click(rules: Rules, s: State, sq: Square, at: int): (r: State)
    ensures s.fromSquare.None? && HoldsPieceToMove(s.board, sq) ==>
      r == s.(fromSquare := Some(sq), legalSquares := LegalTargets(s.board.legal, sq), message := NoMessage)
    ensures s.fromSquare.None? && !HoldsPieceToMove(s.board, sq) ==> r == s.(message := InvalidPiece)
    ensures s.fromSquare == Some(sq) ==>
      r == s.(fromSquare := None, legalSquares := [], message := SelectionCancelled)
    ensures s.fromSquare.Some? && s.fromSquare.value != sq && !rules.isLegal(s.board, Move(s.fromSquare.value, sq, None)) ==>
      r == s.(fromSquare := None, legalSquares := [], message := IllegalMove)
    ensures s.fromSquare.Some? && s.fromSquare.value != sq && rules.isLegal(s.board, Move(s.fromSquare.value, sq, None)) ==>
      r == Commit(rules, s, Move(s.fromSquare.value, sq, None), at)
  {
    match s.fromSquare
    case None =>
      if HoldsPieceToMove(s.board, sq) then
        s.(fromSquare := Some(sq), legalSquares := LegalTargets(s.board.legal, sq), message := NoMessage)
      else
        s.(message := InvalidPiece)
    case Some(from) =>
      if sq == from then
        s.(fromSquare := None, legalSquares := [], message := SelectionCancelled)
      else if rules.isLegal(s.board, Move(from, sq, None)) then
        Commit(rules, s, Move(from, sq, None), at)
      else
        s.(fromSquare := None, legalSquares := [], message := IllegalMove)
  }

  /**
   * A "Go Back" that would have to show a row past the end of the position
   * table: the source's row lookup raises there.  Only the unguarded event
   * loop can get the cursor that far.
   */
  predicate GoBackPastEnd(rows: seq<Position>, s: State, e: Event)
  {
    IsGoBack(e) && s.index > 0 && |s.labeled| > 0 && s.index > |rows|
  }

  /** One event of the inner loop over the events of a poll. */
  function Step(rows: seq<Position>, rules: Rules, s: State, e: Event): (r: State)
    requires 0 <= s.index
    requires ValidEvent(e) && !GoBackPastEnd(rows, s, e)
    ensures s.index - 1 <= r.index <= s.index + 1 && r.index >= 0
    ensures e.Quit? ==> r == s.(running := false, moveMade := true)
    ensures e.OtherEvent? || (e.MouseDown? && e.button != 1) ==> r == s
    ensures IsGoBack(e) ==> r == GoBack(rows, rules, s, e.at)
    ensures e.MouseDown? && e.button == 1 && !IsGoBack(e) ==>
      r == Click(rules, s, SquareFromMouse(e.x, e.y, s.board.turn == Black), e.at)
  {
    match e
    case Quit => s.(running := false, moveMade := true)
    case OtherEvent => s
    case MouseDown(x, y, button, at) =>
      if button != 1 then s
      else if ClickedGoBack(x, y) then GoBack(rows, rules, s, at)
      else Click(rules, s, SquareFromMouse(x, y, s.board.turn == Black), at)
  }

  // ----- the session as a whole -----

  /**
   * The loop variables agree with each other and with the tables: the cursor
   * counts the records, the file on disk holds exactly the records, and while
   * a position is on screen it is table row `index`, decoded afresh, with any
   * selected square holding a piece of the side to move.
   */
  predicate Consistent(rows: seq<Position>, rules: Rules, s: State)
  {
    && 0 <= s.index <= |rows|
    && s.index == |s.labeled|
    && s.persisted == s.labeled
    && (!s.running ==> s.moveMade)
    && (!s.moveMade ==>
          && s.running
          && s.index < |rows|
          && s.row == rows[s.index]
          && s.board == rules.decode(s.row.fen)
          && (s.fromSquare.None? ==> s.legalSquares == [])
          && (s.fromSquare.Some? ==>
                HoldsPieceToMove(s.board, s.fromSquare.value)
                && s.legalSquares == LegalTargets(s.board.legal, s.fromSquare.value)))
  }

  /**
   * Record `rec` copies table row `row` and holds a promotion-free move that
   * the rules library accepts as legal in that position.
   */
  ghost predicate Describes(rules: Rules, rec: Labelled, row: Position)
  {
    && rec.fen == row.fen && rec.phase == row.phase && rec.moveNumber == row.moveNumber
    && rec.turn == row.turn && rec.materialDiff == row.materialDiff
    && exists m :: rules.isLegal(rules.decode(row.fen), m) && m.promotion.None? && rec.yourMove == rules.uci(m)
  }

  /**
   * Every record is either the untouched record of `base` at its own index
   * (a record the session resumed from) or describes the table row with its
   * own index.
   */
  ghost predicate Aligned(rows: seq<Position>, rules: Rules, base: seq<Labelled>, s: State)
  {
    forall i :: 0 <= i < |s.labeled| && i < |rows| ==>
      (i < |base| && s.labeled[i] == base[i]) || Describes(rules, s.labeled[i], rows[i])
  }

  /** The events of one position keep the state consistent and the records aligned. */
  lemma StepPreserves(rows: seq<Position>, rules: Rules, base: seq<Labelled>, s: State, e: Event)
    requires Consistent(rows, rules, s) && !s.moveMade && ValidEvent(e)
    ensures Consistent(rows, rules, Step(rows, rules, s, e))
    ensures Aligned(rows, rules, base, s) ==> Aligned(rows, rules, base, Step(rows, rules, s, e))
  {
    var r := Step(rows, rules, s, e);
    if e.MouseDown? && e.button == 1 && !IsGoBack(e) {
      var sq := SquareFromMouse(e.x, e.y, s.board.turn == Black);
      if s.fromSquare.Some? && s.fromSquare.value != sq && rules.isLegal(s.board, Move(s.fromSquare.value, sq, None)) {
        var m := Move(s.fromSquare.value, sq, None);
        assert r.labeled == s.labeled + [Record(s.row, rules.uci(m), e.at - s.startTime)];
        assert Describes(rules, r.labeled[s.index], rows[s.index]);
        if Aligned(rows, rules, base, s) {
          forall i | 0 <= i < |r.labeled| && i < |rows|
            ensures (i < |base| && r.labeled[i] == base[i]) || Describes(rules, r.labeled[i], rows[i])
          {
            if i < |s.labeled| {
              assert r.labeled[i] == s.labeled[i];
            }
          }
        }
      }
    } else if IsGoBack(e) && s.index > 0 && |s.labeled| > 0 {
      assert forall i :: 0 <= i < |r.labeled| ==> r.labeled[i] == s.labeled[i];
    }
  }

  /**
   * One poll of the window's event queue, with the loop left as soon as a
   * move is made or the window is closed.
   */
  function Batch(rows: seq<Position>, rules: Rules, s: State, events: seq<Event>): (r: State)
    requires Consistent(rows, rules, s)
    requires forall e :: e in events ==> ValidEvent(e)
    ensures Consistent(rows, rules, r)
    ensures r.index <= s.index + 1
    decreases |events|
  {
    if events == [] || s.moveMade then s
    else
      StepPreserves(rows, rules, [], s, events[0]);
      var next := Step(rows, rules, s, events[0]);
      assert next.index == s.index + 1 ==> next.moveMade;
      Batch(rows, rules, next, events[1..])
  }

  lemma {:induction false} BatchAligned(rows: seq<Position>, rules: Rules, base: seq<Labelled>, s: State, events: seq<Event>)
    requires Consistent(rows, rules, s) && Aligned(rows, rules, base, s)
    requires forall e :: e in events ==> ValidEvent(e)
    ensures Aligned(rows, rules, base, Batch(rows, rules, s, events))
    decreases |events|
  {
    if events != [] && !s.moveMade {
      StepPreserves(rows, rules, base, s, events[0]);
      BatchAligned(rows, rules, base, Step(rows, rules, s, events[0]), events[1..]);
    }
  }

  /** A poll: the clock reading when the loop reaches it, and the events it returns. */
  datatype Poll = Poll(at: int, events: seq<Event>)

  predicate ValidPolls(polls: seq<Poll>)
  {
    forall i, e :: 0 <= i < |polls| && e in polls[i].events ==> ValidEvent(e)
  }

  /** The whole session is over: a move was made or the window closed, and the loop does not go round again. */
  predicate Finished(rows: seq<Position>, s: State)
  {
    s.moveMade && !(s.running && s.index < |rows|)
  }

  /**
   * The main loop fed with `polls`: after a move the loop goes on to the next
   * table row (restarting the timer at the next poll's clock reading) unless
   * the window was closed or the table is exhausted.
   */
  function Run(rows: seq<Position>, rules: Rules, s: State, polls: seq<Poll>): (r: State)
    requires Consistent(rows, rules, s)
    requires ValidPolls(polls)
    ensures Consistent(rows, rules, r)
    ensures r.index <= s.index + |polls|
    decreases |polls|, if s.moveMade then 1 else 0
  {
    if polls == [] then s
    else if s.moveMade then
      if s.running && s.index < |rows| then Run(rows, rules, Enter(rows, rules, s, polls[0].at), polls)
      else s
    else
      assert ValidPolls(polls[1..]) by {
        forall i, e | 0 <= i < |polls[1..]| && e in polls[1..][i].events ensures ValidEvent(e) {
          assert polls[1..][i] == polls[i + 1];
        }
      }
      assert forall e :: e in polls[0].events ==> ValidEvent(e);
      Run(rows, rules, Batch(rows, rules, s, polls[0].events), polls[1..])
  }

  lemma {:induction false} RunAligned(rows: seq<Position>, rules: Rules, base: seq<Labelled>, s: State, polls: seq<Poll>)
    requires Consistent(rows, rules, s) && Aligned(rows, rules, base, s)
    requires ValidPolls(polls)
    ensures Aligned(rows, rules, base, Run(rows, rules, s, polls))
    decreases |polls|, if s.moveMade then 1 else 0
  {
    if polls != [] {
      if s.moveMade {
        if s.running && s.index < |rows| {
          RunAligned(rows, rules, base, Enter(rows, rules, s, polls[0].at), polls);
        }
      } else {
        assert forall e :: e in polls[0].events ==> ValidEvent(e);
        BatchAligned(rows, rules, base, s, polls[0].events);
        assert ValidPolls(polls[1..]) by {
          forall i, e | 0 <= i < |polls[1..]| && e in polls[1..][i].events ensures ValidEvent(e) {
            assert polls[1..][i] == polls[i + 1];
          }
        }
        RunAligned(rows, rules, base, Batch(rows, rules, s, polls[0].events), polls[1..]);
      }
    }
  }

  // ----- start-up and resumption -----

  /**
   * The output table as start-up finds it: no file, a file of zero bytes, a
   * file the table reader parses into records, or a non-empty file it
   * cannot parse.
   */
  datatype OutputFile = Missing | ZeroBytes | Readable(records: seq<Labelled>) | Unparsable

  /** The records a session resumes from: those of a readable table, otherwise none. */
  function Resumed(file: OutputFile): (r: seq<Labelled>)
    ensures file.Readable? ==> r == file.records
    ensures file.Missing? || file.ZeroBytes? ==> r == []
  {
    if file.Readable? then file.records else []
  }

  /**
   * How start-up ends: the table reader raises and the script stops, the
   * cursor is already past the position table so the loop never runs, or the
   * loop starts in the given state.
   */
  datatype Startup = ReadFailed | NothingToLabel | Running(state: State)

  /**
   * Start-up: the cursor resumes after the records already in the output
   * table, and the loop runs only while the cursor is inside the position
   * table.
   */
  function Start(rows: seq<Position>, rules: Rules, file: OutputFile, at: int): (r: Startup)
    ensures r.ReadFailed? <==> file.Unparsable?
    ensures r.NothingToLabel? <==> !file.Unparsable? && |Resumed(file)| >= |rows|
    ensures r.Running? ==> Consistent(rows, rules, r.state) && !r.state.moveMade
    ensures r.Running? ==> r.state.index == |Resumed(file)| && r.state.labeled == Resumed(file)
    ensures r.Running? ==> r.state.row == rows[|Resumed(file)|] && r.state.message == NoMessage
  {
    if file.Unparsable? then ReadFailed
    else
      var labeled := Resumed(file);
      if |labeled| < |rows| then
        var row := rows[|labeled|];
        Running(State(|labeled|, labeled, labeled, true, false, row, rules.decode(row.fen), None, [], NoMessage, at))
      else
        NothingToLabel
  }

  /**
   * The whole session: whatever the user does, the cursor counts the records,
   * the file on disk holds exactly the records, and every record is either
   * the resumed record at its own index, untouched, or copies the table row
   * at its own index and holds a legal move of that position -- including a
   * record re-labelled after going back below the resume point.  A fresh
   * session therefore only ever writes records that describe their rows.
   */
  lemma SessionTheorem(rows: seq<Position>, rules: Rules, file: OutputFile, at: int, polls: seq<Poll>)
    requires Start(rows, rules, file, at).Running?
    requires ValidPolls(polls)
    ensures var r := Run(rows, rules, Start(rows, rules, file, at).state, polls);
            && r.index == |r.labeled| <= |rows|
            && r.persisted == r.labeled
            && forall i :: 0 <= i < |r.labeled| ==>
                 (i < |Resumed(file)| && r.labeled[i] == Resumed(file)[i]) || Describes(rules, r.labeled[i], rows[i])
  {
    var s := Start(rows, rules, file, at).state;
    assert Aligned(rows, rules, Resumed(file), s);
    RunAligned(rows, rules, Resumed(file), s, polls);
  }

  // ----- go back after a move -----

  /**
   * Committing a move and then pressing "Go Back" on the next position
   * restores the records, the file on disk, the cursor and the position shown.
   */
  lemma CommitThenGoBack(rows: seq<Position>, rules: Rules, s: State, click: Event, at: int, back: Event)
    requires Consistent(rows, rules, s) && !s.moveMade
    requires ValidEvent(click) && click.MouseDown?
    requires Step(rows, rules, s, click).index == s.index + 1
    requires s.index + 1 < |rows|
    requires IsGoBack(back)
    ensures var s1 := Step(rows, rules, s, click);
            var s2 := Step(rows, rules, Enter(rows, rules, s1, at), back);
            && s1.labeled == s.labeled + [s1.labeled[s.index]]
            && s2.labeled == s.labeled && s2.persisted == s.persisted && s2.index == s.index
            && s2.row == s.row && s2.board == s.board && s2.fromSquare.None? && s2.message == WentBack
  {
    var s1 := Step(rows, rules, s, click);
    StepPreserves(rows, rules, [], s, click);
    assert s1.labeled[..|s1.labeled| - 1] == s.labeled;
  }
}
