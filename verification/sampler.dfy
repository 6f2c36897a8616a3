/**
 * The position sampler (dataset_builders/extract_positions.py): from every game of a corpus that is long enough it
 * draws random ply indices until one leads to a position where the game is
 * not over, and records that one position.
 *
 * A game is its starting board and its main-line moves.  The random numbers
 * are supplied as `rand(g, a)`, the raw random value used by attempt `a` on
 * game number `g` (counted from 0 in corpus order); `RandInt` maps it into
 * the inclusive range the source asks for.
 */
module Sampler {
  import opened Options
  import opened Chess
  import opened Material

  /** One row of the position table. */
  datatype Position = Position(fen: string, phase: Phase, moveNumber: int, turn: Color, materialDiff: int)

  datatype Game = Game(start: Board, moves: seq<Move>)

  /** Games with fewer plies than this are skipped. */
  const MinGamePlies := 10
  /** The smallest ply index that may be sampled. */
  const FirstSampledPly := 5

  /** A uniform integer between `lo` and `hi`, both included, when the generator produces `raw`. */
  function RandInt(lo: int, hi: int, raw: nat): (r: int)
    requires lo <= hi
    ensures lo <= r <= hi
  {
    lo + raw % (hi - lo + 1)
  }

  /** How many ply indices are tried on a game: its number of plies less five. */
  function Attempts(game: Game): int
  {
    |game.moves| - FirstSampledPly
  }

  /** The ply index drawn by attempt `a` on game number `g`. */
  function DrawnPly(game: Game, g: nat, a: nat, rand: (nat, nat) -> nat): (idx: int)
    requires |game.moves| >= MinGamePlies
    ensures FirstSampledPly <= idx < |game.moves|
  {
    RandInt(FirstSampledPly, |game.moves| - 1, rand(g, a))
  }

  /** The board after the first `idx` plies of the game. */
  function BoardAt(rules: Rules, game: Game, idx: int): Board
    requires 0 <= idx <= |game.moves|
  {
    Replay(rules, game.start, game.moves[..idx])
  }

  /** The record written for the position after `idx` plies. */
  function PositionAt(rules: Rules, game: Game, idx: int): (p: Position)
    requires 0 <= idx <= |game.moves|
    ensures p.moveNumber == idx + 1
    ensures p.fen == rules.fen(BoardAt(rules, game, idx))
    ensures p.turn == BoardAt(rules, game, idx).turn
    ensures p.phase == ClassifyPhase(BoardAt(rules, game, idx), idx + 1)
    ensures p.materialDiff == MaterialDiff(BoardAt(rules, game, idx))
  {
    var b := BoardAt(rules, game, idx);
    Position(rules.fen(b), ClassifyPhase(b, idx + 1), idx + 1, b.turn, MaterialDiff(b))
  }

  /** Attempt `a` on game number `g` lands on a position where the game is over. */
  predicate OverAt(rules: Rules, game: Game, g: nat, rand: (nat, nat) -> nat, a: nat)
    requires |game.moves| >= MinGamePlies
  {
    rules.isGameOver(BoardAt(rules, game, DrawnPly(game, g, a, rand)))
  }

  /** Attempt `a` is the first one that lands on a position where the game goes on. */
  predicate Accepted(rules: Rules, game: Game, g: nat, rand: (nat, nat) -> nat, a: nat)
    requires |game.moves| >= MinGamePlies
  {
    a < Attempts(game) && !OverAt(rules, game, g, rand, a)
    && forall b: nat :: b < a ==> OverAt(rules, game, g, rand, b)
  }

  /** The first accepted attempt from `a` onwards, given that all earlier ones failed. */
  function FirstAcceptedFrom(rules: Rules, game: Game, g: nat, rand: (nat, nat) -> nat, a: nat): (r: Option<nat>)
    requires |game.moves| >= MinGamePlies
    requires a <= Attempts(game)
    requires forall b: nat :: b < a ==> OverAt(rules, game, g, rand, b)
    ensures r.Some? ==> Accepted(rules, game, g, rand, r.value)
    ensures r.None? <==> forall b: nat :: b < Attempts(game) ==> OverAt(rules, game, g, rand, b)
    decreases Attempts(game) - a
  {
    if a == Attempts(game) then None
    else if !OverAt(rules, game, g, rand, a) then Some(a)
    else FirstAcceptedFrom(rules, game, g, rand, a + 1)
  }

  /** What one game contributes: `None` when it is too short or every attempt hits a finished game. */
  function SampleGame(rules: Rules, game: Game, g: nat, rand: (nat, nat) -> nat): (r: Option<Position>)
    ensures |game.moves| < MinGamePlies ==> r.None?
  {
    if |game.moves| < MinGamePlies then None
    else
      match FirstAcceptedFrom(rules, game, g, rand, 0)
      case None => None
      case Some(a) => Some(PositionAt(rules, game, DrawnPly(game, g, a, rand)))
  }

  /**
   * A game of at least 10 plies gives nothing exactly when all `len - 5`
   * attempts land on a finished game; otherwise it gives the record of the
   * first attempt that does not.
   */
  lemma SampleGameSpec(rules: Rules, game: Game, g: nat, rand: (nat, nat) -> nat)
    requires |game.moves| >= MinGamePlies
    ensures SampleGame(rules, game, g, rand).None? <==> forall b: nat :: b < Attempts(game) ==> OverAt(rules, game, g, rand, b)
    ensures SampleGame(rules, game, g, rand).Some? ==>
      exists b: nat :: Accepted(rules, game, g, rand, b)
                       && SampleGame(rules, game, g, rand).value == PositionAt(rules, game, DrawnPly(game, g, b, rand))
  {
    var first := FirstAcceptedFrom(rules, game, g, rand, 0);
    if first.Some? {
      assert Accepted(rules, game, g, rand, first.value);
    }
  }

  /**
   * A sampled position lies at ply index 5 or later with its move number one
   * past the index, the game is not over there, and its fields describe that
   * board.
   */
  lemma SampledPositionSound(rules: Rules, game: Game, g: nat, rand: (nat, nat) -> nat, p: Position)
    requires SampleGame(rules, game, g, rand) == Some(p)
    ensures |game.moves| >= MinGamePlies
    ensures FirstSampledPly + 1 <= p.moveNumber <= |game.moves|
    ensures !rules.isGameOver(BoardAt(rules, game, p.moveNumber - 1))
    ensures p.fen == rules.fen(BoardAt(rules, game, p.moveNumber - 1))
    ensures p.turn == BoardAt(rules, game, p.moveNumber - 1).turn
    ensures p.phase == ClassifyPhase(BoardAt(rules, game, p.moveNumber - 1), p.moveNumber)
    ensures p.materialDiff == MaterialDiff(BoardAt(rules, game, p.moveNumber - 1))
  {
    var first := FirstAcceptedFrom(rules, game, g, rand, 0);
    var idx := DrawnPly(game, g, first.value, rand);
    assert p == PositionAt(rules, game, idx);
    assert !OverAt(rules, game, g, rand, first.value);
  }

  /** When no position of a game ends it, every game of at least 10 plies yields a position. */
  lemma SampleGameWhenNeverOver(rules: Rules, game: Game, g: nat, rand: (nat, nat) -> nat)
    requires forall b: Board :: !rules.isGameOver(b)
    ensures SampleGame(rules, game, g, rand).Some? <==> |game.moves| >= MinGamePlies
  {
    if |game.moves| >= MinGamePlies {
      SampleGameSpec(rules, game, g, rand);
      assert !OverAt(rules, game, g, rand, 0);
    }
  }

  // ----- the corpus -----

  /** `parts[0] + parts[1] + ... + parts[n - 1]`. */
  function Joined<T>(parts: seq<seq<T>>, n: nat): seq<T>
    requires n <= |parts|
  {
    if n == 0 then [] else Joined(parts, n - 1) + parts[n - 1]
  }

  lemma {:induction false} JoinedPrefix<T>(parts: seq<seq<T>>, m: nat, n: nat)
    requires m <= n <= |parts|
    ensures Joined(parts, m) <= Joined(parts, n)
    decreases n
  {
    if m < n {
      JoinedPrefix(parts, m, n - 1);
      var short, prev, next := Joined(parts, m), Joined(parts, n - 1), Joined(parts, n);
      assert next == prev + parts[n - 1];
      assert forall i :: 0 <= i < |short| ==> short[i] == prev[i] == next[i];
    }
  }

  lemma {:induction false} JoinedLength<T>(parts: seq<seq<T>>, n: nat)
    requires n <= |parts|
    requires forall g :: 0 <= g < |parts| ==> |parts[g]| <= 1
    ensures |Joined(parts, n)| <= n
    decreases n
  {
    if n > 0 {
      JoinedLength(parts, n - 1);
    }
  }

  lemma {:induction false} JoinedOrigin<T>(parts: seq<seq<T>>, n: nat, i: nat)
    requires n <= |parts|
    requires forall g :: 0 <= g < |parts| ==> |parts[g]| <= 1
    requires i < |Joined(parts, n)|
    ensures exists g: nat :: g < n && |Joined(parts, g)| == i && parts[g] == [Joined(parts, n)[i]]
    decreases n
  {
    var prev := Joined(parts, n - 1);
    assert Joined(parts, n) == prev + parts[n - 1];
    if i < |prev| {
      JoinedOrigin(parts, n - 1, i);
      assert Joined(parts, n)[i] == prev[i];
    } else {
      assert |prev| == i && parts[n - 1] == [Joined(parts, n)[i]];
    }
  }

  /** What each game of the corpus contributes (nothing or one position), in corpus order. */
  function Contributions(rules: Rules, corpus: seq<Game>, rand: (nat, nat) -> nat): (r: seq<seq<Position>>)
    ensures |r| == |corpus|
    ensures forall g :: 0 <= g < |corpus| ==> r[g] == ToSeq(SampleGame(rules, corpus[g], g, rand))
    ensures forall g :: 0 <= g < |corpus| ==> |r[g]| <= 1
  {
    seq(|corpus|, g requires 0 <= g < |corpus| => ToSeq(SampleGame(rules, corpus[g], g, rand)))
  }

  /** The positions contributed by the first `n` games, in corpus order. */
  function Candidates(rules: Rules, corpus: seq<Game>, rand: (nat, nat) -> nat, n: nat): (r: seq<Position>)
    requires n <= |corpus|
    ensures |r| <= n
  {
    var parts := Contributions(rules, corpus, rand);
    JoinedLength(parts, n);
    Joined(parts, n)
  }

  /** Looking at more games only ever extends the candidates. */
  lemma CandidatesPrefix(rules: Rules, corpus: seq<Game>, rand: (nat, nat) -> nat, m: nat, n: nat)
    requires m <= n <= |corpus|
    ensures Candidates(rules, corpus, rand, m) <= Candidates(rules, corpus, rand, n)
  {
    JoinedPrefix(Contributions(rules, corpus, rand), m, n);
  }

  /**
   * Every candidate comes from exactly one game: the `i`-th candidate is the
   * position of some game `g`, and exactly `i` candidates come from the games
   * before `g`.  So each game gives at most one position and corpus order is kept.
   */
  lemma CandidateOrigin(rules: Rules, corpus: seq<Game>, rand: (nat, nat) -> nat, n: nat, i: nat)
    requires n <= |corpus|
    requires i < |Candidates(rules, corpus, rand, n)|
    ensures exists g: nat :: g < n && |Candidates(rules, corpus, rand, g)| == i
                             && SampleGame(rules, corpus[g], g, rand) == Some(Candidates(rules, corpus, rand, n)[i])
  {
    var parts := Contributions(rules, corpus, rand);
    JoinedOrigin(parts, n, i);
    var g: nat :| g < n && |Joined(parts, g)| == i && parts[g] == [Joined(parts, n)[i]];
    assert Candidates(rules, corpus, rand, g) == Joined(parts, g);
  }

  /** The first `n` elements of `s` (all of them if there are fewer, none if `n <= 0`). */
  function Take<T>(s: seq<T>, n: int): (r: seq<T>)
    ensures r <= s
    ensures n <= 0 ==> r == []
    ensures n > 0 ==> |r| <= n
    ensures |r| < n ==> r == s
  {
    if n <= 0 then [] else if n < |s| then s[..n] else s
  }

  /** What `Take` of a list of at most `bound` elements can be. */
  lemma TakeBounds<T>(s: seq<T>, n: int, bound: nat)
    requires |s| <= bound
    ensures |Take(s, n)| <= bound
    ensures n <= 0 ==> Take(s, n) == []
    ensures n > 0 ==> |Take(s, n)| <= n
    ensures |Take(s, n)| < n ==> Take(s, n) == s
  {
  }

  /**
   * One round of the corpus loop: game `g` contributes `found`, and while
   * the limit had not been reached the output stays within it.
   */
  lemma CandidatesStep(rules: Rules, corpus: seq<Game>, rand: (nat, nat) -> nat, g: nat, positions: seq<Position>,
                       found: Option<Position>, maxPositions: int)
    requires g < |corpus|
    requires positions == Candidates(rules, corpus, rand, g) && |positions| < maxPositions
    requires found == SampleGame(rules, corpus[g], g, rand)
    ensures positions + ToSeq(found) == Candidates(rules, corpus, rand, g + 1)
    ensures |positions + ToSeq(found)| <= maxPositions
  {
    var parts := Contributions(rules, corpus, rand);
    assert Joined(parts, g + 1) == Joined(parts, g) + parts[g];
  }

  /** Where the corpus loop stops, its output is the first `maxPositions` candidates of the whole corpus. */
  lemma LoopExit(rules: Rules, corpus: seq<Game>, rand: (nat, nat) -> nat, g: nat, positions: seq<Position>,
                 maxPositions: int)
    requires g <= |corpus| && positions == Candidates(rules, corpus, rand, g)
    requires maxPositions > 0 || g == 0
    requires g == |corpus| || |positions| >= maxPositions
    requires maxPositions > 0 ==> |positions| <= maxPositions
    ensures positions == Take(Candidates(rules, corpus, rand, |corpus|), maxPositions)
  {
    var c, all := positions, Candidates(rules, corpus, rand, |corpus|);
    CandidatesPrefix(rules, corpus, rand, g, |corpus|);
    if maxPositions <= 0 {
      assert c == [];
    } else if g == |corpus| {
      assert c == all;
    } else if maxPositions < |all| {
      assert |c| == maxPositions;
      assert forall i :: 0 <= i < |c| ==> c[i] == all[i];
      assert c == all[..maxPositions];
    } else {
      assert |c| == |all|;
      assert forall i :: 0 <= i < |c| ==> c[i] == all[i];
      assert c == all;
    }
  }

  /** The attempt loop of one game: at most `len - 5` draws, stopping at the first playable position. */
  method SampleOne(rules: Rules, game: Game, g: nat, rand: (nat, nat) -> nat) returns (found: Option<Position>)
    requires |game.moves| >= MinGamePlies
    ensures found == SampleGame(rules, game, g, rand)
  {
    var attempt := 0;
    while attempt < |game.moves| - FirstSampledPly
      invariant 0 <= attempt <= Attempts(game)
      invariant forall b: nat :: b < attempt ==> OverAt(rules, game, g, rand, b)
      invariant FirstAcceptedFrom(rules, game, g, rand, 0) == FirstAcceptedFrom(rules, game, g, rand, attempt)
    {
      var idx := RandInt(FirstSampledPly, |game.moves| - 1, rand(g, attempt));
      var board := Replay(rules, game.start, game.moves[..idx]);
      if rules.isGameOver(board) {
        attempt := attempt + 1;
        continue;
      }
      var moveNumber := idx + 1;
      found := Some(Position(rules.fen(board), ClassifyPhase(board, moveNumber), moveNumber,
                             board.turn, MaterialDiff(board)));
      return;
    }
    found := None;
  }

  /**
   * One round of the corpus loop: game `g` is skipped when it is too short,
   * otherwise its attempt loop runs and a position it finds is appended.
   * `sampled` tells whether a position was added.
   */
  method ScanGame(rules: Rules, corpus: seq<Game>, rand: (nat, nat) -> nat, g: nat, positions: seq<Position>,
                  maxPositions: int)
    returns (next: seq<Position>, sampled: bool)
    requires g < |corpus|
    requires positions == Candidates(rules, corpus, rand, g) && |positions| < maxPositions
    ensures next == Candidates(rules, corpus, rand, g + 1) && |next| <= maxPositions
    ensures sampled <==> |next| == |positions| + 1
    ensures !sampled ==> next == positions
  {
    var game := corpus[g];
    if |game.moves| < MinGamePlies {
      CandidatesStep(rules, corpus, rand, g, positions, None, maxPositions);
      return positions, false;
    }
    var found := SampleOne(rules, game, g, rand);
    CandidatesStep(rules, corpus, rand, g, positions, found, maxPositions);
    next := positions + ToSeq(found);
    sampled := found.Some?;
  }

  /**
   * The position extractor: reads games in order until `maxPositions`
   * positions are collected or the corpus runs out.  The result is exactly
   * the first `maxPositions` candidates of the whole corpus.
   */
  method ExtractPositions(rules: Rules, corpus: seq<Game>, maxPositions: int, rand: (nat, nat) -> nat)
    returns (positions: seq<Position>)
    ensures positions == Take(Candidates(rules, corpus, rand, |corpus|), maxPositions)
    ensures |positions| <= |corpus|
    ensures maxPositions <= 0 ==> positions == []
    ensures maxPositions > 0 ==> |positions| <= maxPositions
    ensures |positions| < maxPositions ==> positions == Candidates(rules, corpus, rand, |corpus|)
  {
    positions := [];
    var g := 0;
    while |positions| < maxPositions
      invariant 0 <= g <= |corpus|
      invariant positions == Candidates(rules, corpus, rand, g)
      invariant maxPositions > 0 ==> |positions| <= maxPositions
      invariant maxPositions <= 0 ==> g == 0
      decreases |corpus| - g
    {
      if g == |corpus| {
        break;
      }
      var sampled;
      positions, sampled := ScanGame(rules, corpus, rand, g, positions, maxPositions);
      g := g + 1;
      if sampled && |positions| >= maxPositions {
        break;
      }
    }
    LoopExit(rules, corpus, rand, g, positions, maxPositions);
    TakeBounds(Candidates(rules, corpus, rand, |corpus|), maxPositions, |corpus|);
  }
}
