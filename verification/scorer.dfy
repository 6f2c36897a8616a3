/**
 * The deviation scorer (dataset_builders/stockfish_analysis.py): every
 * labelled row is evaluated by the engine before and after the user's move,
 * and four columns -- the two evaluations, the deviation and the engine's
 * best move -- are added to the table.
 *
 * The engine is not modelled; what happened to each row is supplied as a
 * `RowTrace`.  Scores are from White's side, with `cp` the centipawn value
 * the engine library reports when a mate is counted as 1000.
 */
module Scorer {
  import opened Options
  import opened Session

  /** An engine score: whether it announces a forced mate, and its centipawn value. */
  datatype Eval = Eval(isMate: bool, cp: int)

  /**
   * What happened to one row.  `Unreadable`: the FEN or the move text raised
   * (lines 23-24, outside any `try`), which ends the script.  `BeforeFailed`:
   * the first analysis (or reading its score or best move) raised.
   * `PushRaised`: playing the move raised (line 44, outside any `try`), which
   * ends the script.  `AfterFailed`: the second analysis raised.  `Analysed`:
   * both analyses succeeded.
   */
  datatype RowTrace =
    | Unreadable
    | BeforeFailed
    | PushRaised(before: Eval, best: string)
    | AfterFailed(before: Eval, best: string)
    | Analysed(before: Eval, best: string, after: Eval)

  /** The row raises an exception no `except` catches. */
  predicate Aborts(t: RowTrace)
  {
    t.Unreadable? || t.PushRaised?
  }

  /** The centipawn value standing in for a mate in the deviation. */
  const MateScore := 1000

  function Abs(x: int): int
  {
    if x < 0 then -x else x
  }

  /**
   * The deviation of lines 63-71.  It is never negative unless a mate
   * announced before the move was lost, and an unchanged evaluation scores 0.
   */
  function Deviation(before: Eval, after: Eval): (r: int)
    ensures !(before.isMate && !after.isMate) ==> r >= 0
    ensures before == after ==> r == 0
  {
    if before.isMate then
      if after.isMate then 0 else MateScore - after.cp
    else
      Abs(before.cp - after.cp)
  }

  /** The three branches: mate kept, mate lost, and no mate before the move. */
  lemma DeviationCases(before: Eval, after: Eval)
    ensures !before.isMate ==> Deviation(before, after) == Abs(before.cp - after.cp) >= 0
    ensures before.isMate && after.isMate ==> Deviation(before, after) == 0
    ensures before.isMate && !after.isMate ==> Deviation(before, after) == MateScore - after.cp
  {
  }

  /** A move that leaves the evaluation as it was has deviation 0, mate or not. */
  lemma UnchangedEvalNoDeviation(e: Eval)
    ensures Deviation(e, e) == 0
  {
  }

  function Mirror(e: Eval): Eval
  {
    Eval(e.isMate, -e.cp)
  }

  /**
   * Without a mate before the move the deviation does not depend on which
   * side the evaluations favour: mirroring both scores keeps it.
   */
  lemma DeviationMirrorSymmetric(before: Eval, after: Eval)
    requires !before.isMate
    ensures Deviation(Mirror(before), Mirror(after)) == Deviation(before, after)
  {
  }

  /**
   * After a lost mate the deviation is `1000 - after_cp`, not an absolute
   * value: it is negative once the new score exceeds 1000, and mirroring the
   * scores changes it.
   */
  lemma MateLostIsSigned()
    ensures Deviation(Eval(true, 998), Eval(false, 1200)) == -200
    ensures Deviation(Eval(true, 998), Eval(false, 100)) == 900
    ensures Deviation(Mirror(Eval(true, 998)), Mirror(Eval(false, 100))) == 1100
  {
  }

  /** The four entries a row appends: `eval_before`, `eval_after`, the deviation and `best_move`. */
  datatype RowScore = RowScore(evalBefore: Option<int>, evalAfter: Option<int>, deviation: Option<int>,
                               bestMove: Option<string>)

  /** The entries appended for a row that does not end the script. */
  function ScoreRow(t: RowTrace): (r: RowScore)
    requires !Aborts(t)
    ensures r.evalBefore.None? <==> t.BeforeFailed?
    ensures t.BeforeFailed? ==> r == RowScore(None, None, None, None)
    ensures r.bestMove.None? <==> r.evalBefore.None?
    ensures r.evalAfter.None? <==> !t.Analysed?
    ensures r.deviation.None? <==> r.evalAfter.None?
    ensures t.AfterFailed? ==> r.evalBefore == Some(t.before.cp) && r.bestMove == Some(t.best)
    ensures t.Analysed? ==>
      && r.evalBefore == Some(t.before.cp) && r.evalAfter == Some(t.after.cp)
      && r.bestMove == Some(t.best) && r.deviation == Some(Deviation(t.before, t.after))
  {
    match t
    case BeforeFailed => RowScore(None, None, None, None)
    case AfterFailed(before, best) => RowScore(Some(before.cp), None, None, Some(best))
    case Analysed(before, best, after) =>
      RowScore(Some(before.cp), Some(after.cp), Some(Deviation(before, after)), Some(best))
  }

  /** A row of the scored table: the labelled row and the four new columns. */
  datatype Scored = Scored(row: Labelled, evalBefore: Option<int>, evalAfter: Option<int>,
                           deviation: Option<int>, bestMove: Option<string>)

  function Join(row: Labelled, score: RowScore): Scored
  {
    Scored(row, score.evalBefore, score.evalAfter, score.deviation, score.bestMove)
  }

  /**
   * The loop over the table and the column assignment after it.  `None`: a
   * row raised an uncaught exception, so nothing is written.  Otherwise every
   * row gets the entries of its own trace, in table order.
   */
  method ScoreTable(rows: seq<Labelled>, traces: seq<RowTrace>) returns (out: Option<seq<Scored>>)
    requires |traces| == |rows|
    ensures out.None? <==> exists i :: 0 <= i < |traces| && Aborts(traces[i])
    ensures out.Some? ==> |out.value| == |rows|
    ensures out.Some? ==> forall i :: 0 <= i < |rows| ==> out.value[i] == Join(rows[i], ScoreRow(traces[i]))
  {
    var evalBefore: seq<Option<int>> := [];
    var evalAfter: seq<Option<int>> := [];
    var deviations: seq<Option<int>> := [];
    var bestMoves: seq<Option<string>> := [];
    var i := 0;
    while i < |rows|
      invariant 0 <= i <= |rows|
      invariant |evalBefore| == i && |evalAfter| == i && |deviations| == i && |bestMoves| == i
      invariant forall j :: 0 <= j < i ==> !Aborts(traces[j])
      invariant forall j :: 0 <= j < i ==>
        RowScore(evalBefore[j], evalAfter[j], deviations[j], bestMoves[j]) == ScoreRow(traces[j])
    {
      match traces[i] {
      case Unreadable =>
        return None;
      case BeforeFailed =>
        evalBefore := evalBefore + [None];
        evalAfter := evalAfter + [None];
        deviations := deviations + [None];
        bestMoves := bestMoves + [None];
      case PushRaised(_, best) =>
        return None;
      case AfterFailed(before, best) =>
        bestMoves := bestMoves + [Some(best)];
        evalBefore := evalBefore + [Some(before.cp)];
        evalAfter := evalAfter + [None];
        deviations := deviations + [None];
      case Analysed(before, best, after) =>
        bestMoves := bestMoves + [Some(best)];
        evalBefore := evalBefore + [Some(before.cp)];
        evalAfter := evalAfter + [Some(after.cp)];
        deviations := deviations + [Some(Deviation(before, after))];
      }
      i := i + 1;
    }
    out := Some(seq(|rows|, j requires 0 <= j < |rows| =>
                             Scored(rows[j], evalBefore[j], evalAfter[j], deviations[j], bestMoves[j])));
  }
}
