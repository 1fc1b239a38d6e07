/** The referee loop over its nine turns, apart from what a turn does and how a board
    is printed. */
module MatchLoop {
  import opened Boards
  import opened Engine

  datatype TurnError =
    | BotError(text: string)
    | NoOutput
    | Unparseable(text: string)
    | Illegal(error: MoveError)
    | HttpError(text: string)

  /** A turn gives a new board, loses the match, or ends it with an exception. */
  datatype Turn = Played(board: Board) | Forfeited(error: TurnError) | Raised

  datatype Move = Move(number: nat, player: Player, board: string, error: Option<TurnError>)

  datatype MatchResult = MatchResult(result: Outcome, moves: seq<Move>)

  /** How a call of the match loop ends: with a result, with an exception of turn
      `turn`, or by running past the loop without a result. */
  datatype Run = Finished(result: MatchResult) | Aborted(turn: nat) | FellThrough

  function ForfeitOf(p: Player): Outcome {
    if p == X then XForfeit else OForfeit
  }

  function MoverAt(i: nat): Player {
    if i % 2 == 0 then X else O
  }

  /** What the loop is given: the winning lines, the printed form of a board and the
      turn taken on a board after a number of accepted turns. */
  datatype Arena = Arena(lines: seq<seq<nat>>, text: Board -> string, turn: (Board, nat) -> Turn) {
    /** Whatever the bots reply, a played turn is a legal one. */
    ghost predicate Fair() {
      forall b: Board, k: nat, next: Board ::
        |b| == CELLS && turn(b, k) == Played(next) ==> LegalStep(b, next, MoverAt(k))
    }

    function Record(k: nat, b: Board, error: Option<TurnError>): Move {
      Move(k + 1, MoverAt(k), text(b), error)
    }
  }

  function Prepend(moves: seq<Move>, run: Run): (r: Run)
    ensures moves == [] || !run.Finished? ==> r == run
  {
    match run
    case Finished(m) => assert [] + m.moves == m.moves; Finished(m.(moves := moves + m.moves))
    case _ => run
  }

  lemma PrependTwice(moves: seq<Move>, more: seq<Move>, run: Run)
    ensures Prepend(moves, Prepend(more, run)) == Prepend(moves + more, run)
  {
    if run.Finished? {
      assert moves + (more + run.result.moves) == moves + more + run.result.moves;
    }
  }

  /** The rest of a match after `k` accepted turns have led to `board`. */
  function PlayFrom(a: Arena, board: Board, k: nat): (run: Run)
    requires k <= 9
    ensures run.Aborted? ==> run.turn > 0
    decreases 9 - k
  {
    if k == 9 then FellThrough
    else
      match a.turn(board, k)
      case Raised => Aborted(k + 1)
      case Forfeited(e) => Finished(MatchResult(ForfeitOf(MoverAt(k)), [a.Record(k, board, Some(e))]))
      case Played(next) =>
        match CheckWinner(a.lines, next)
        case Some(outcome) => Finished(MatchResult(outcome, [a.Record(k, next, None)]))
        case None => Prepend([a.Record(k, next, None)], PlayFrom(a, next, k + 1))
  }

  method TakeTurns(a: Arena) returns (run: Run)
    ensures run == PlayFrom(a, EMPTY_BOARD, 0)
  {
    var board := EMPTY_BOARD;
    var moves: seq<Move> := [];
    for k := 0 to 9
      invariant PlayFrom(a, EMPTY_BOARD, 0) == Prepend(moves, PlayFrom(a, board, k))
    {
      match a.turn(board, k) {
        case Raised =>
          return Aborted(k + 1);
        case Forfeited(e) =>
          moves := moves + [a.Record(k, board, Some(e))];
          return Finished(MatchResult(ForfeitOf(MoverAt(k)), moves));
        case Played(next) =>
          board := next;
          PrependTwice(moves, [a.Record(k, board, None)], PlayFrom(a, board, k + 1));
          moves := moves + [a.Record(k, board, None)];
          var outcome := CheckWinner(a.lines, board);
          if outcome.Some? {
            return Finished(MatchResult(outcome.value, moves));
          }
      }
    }
    run := FellThrough;
  }

  // ---------------------------------------------------------------- what every run keeps

  /** The board after `k` accepted turns of an unfinished match. */
  ghost predicate Position(lines: seq<seq<nat>>, b: Board, k: nat) {
    && |b| == CELLS
    && Count(b, Mark(X)) == (k + 1) / 2 && Count(b, Mark(O)) == k / 2
    && CheckWinner(lines, b).None?
  }

  lemma EmptyBoardPosition(lines: seq<seq<nat>>)
    ensures Position(lines, EMPTY_BOARD, 0)
  {
    assert EMPTY_BOARD[0] == Empty;
    forall p: Player, k | 0 <= k < |lines|
      ensures !Owns(EMPTY_BOARD, lines[k], p)
    {
      assert lines[k] != [] && lines[k][0] < CELLS ==> EMPTY_BOARD[lines[k][0]] == Empty;
    }
  }

  /** An accepted turn adds one mark, completes lines of its mover only, and ends the
      match when the ninth mark is placed. */
  lemma PositionStep(lines: seq<seq<nat>>, b: Board, next: Board, k: nat)
    requires Position(lines, b, k) && k < 9 && LegalStep(b, next, MoverAt(k))
    ensures |next| == CELLS
    ensures Count(next, Mark(X)) == (k + 2) / 2 && Count(next, Mark(O)) == (k + 1) / 2
    ensures !HasLine(lines, next, MoverAt(k).Other())
    ensures CheckWinner(lines, next).None? ==> Position(lines, next, k + 1)
    ensures k == 8 ==> CheckWinner(lines, next).Some?
    ensures k < 8 ==> CheckWinner(lines, next) != Some(Cat)
  {
    StepCounts(b, next, MoverAt(k));
    StepLines(lines, b, next, MoverAt(k));
    CountTotal(next);
    assert Empty in next <==> Count(next, Empty) > 0;
  }

  /** The loop never runs past its ninth turn. */
  lemma {:induction false} MatchIsTotal(a: Arena, board: Board, k: nat)
    requires a.Fair() && Position(a.lines, board, k) && k < 9
    ensures !PlayFrom(a, board, k).FellThrough?
    decreases 9 - k
  {
    var turn := a.turn(board, k);
    if turn.Played? {
      PositionStep(a.lines, board, turn.board, k);
      if CheckWinner(a.lines, turn.board).None? {
        MatchIsTotal(a, turn.board, k + 1);
      }
    }
  }

  /** Turns `k` to `n - 1` are played without deciding the match and lead to `b`. */
  ghost predicate Leads(a: Arena, board: Board, k: nat, b: Board, n: nat)
    decreases n - k
  {
    if k >= n then k == n && b == board
    else
      && a.turn(board, k).Played?
      && CheckWinner(a.lines, a.turn(board, k).board).None?
      && Leads(a, a.turn(board, k).board, k + 1, b, n)
  }

  /** The turn after `n` accepted ones is reached and raises an exception. */
  ghost predicate RaisesAfter(a: Arena, board: Board, k: nat, n: nat) {
    exists b: Board :: Leads(a, board, k, b, n) && a.turn(b, n) == Raised
  }

  /** A match ends with an exception exactly when some turn it reaches raises one. */
  lemma {:induction false} AbortedExactly(a: Arena, board: Board, k: nat, n: nat)
    requires k <= 9
    ensures PlayFrom(a, board, k) == Aborted(n + 1) <==> k <= n < 9 && RaisesAfter(a, board, k, n)
    decreases 9 - k
  {
    if k < 9 {
      var turn := a.turn(board, k);
      if turn.Played? && CheckWinner(a.lines, turn.board).None? {
        AbortedExactly(a, turn.board, k + 1, n);
        if k < n {
          assert forall b: Board :: Leads(a, board, k, b, n) <==> Leads(a, turn.board, k + 1, b, n);
        }
      } else if n == k {
        assert Leads(a, board, k, board, k);
      }
    }
  }

  lemma {:induction false} LeadsToPosition(a: Arena, board: Board, k: nat, b: Board, n: nat)
    requires a.Fair() && Position(a.lines, board, k) && Leads(a, board, k, b, n) && n < 9
    ensures Position(a.lines, b, n)
    decreases n - k
  {
    if k < n {
      var next := a.turn(board, k).board;
      assert LegalStep(board, next, MoverAt(k));
      PositionStep(a.lines, board, next, k);
      LeadsToPosition(a, next, k + 1, b, n);
    }
  }

  /** A right record of the turn taken on `before`: number, player and board text fit, and
      unless it is that turn's error its board is one legal mark away. The player who did
      not move has no line, so the order in which lines are scanned does not matter. */
  ghost predicate RecordedMove(a: Arena, move: Move, number: nat, before: Board, after: Board) {
    && number > 0 && move.number == number && move.player == MoverAt(number - 1)
    && |after| == CELLS && move.board == a.text(after)
    && a.turn(before, number - 1) == (if move.error.Some? then Forfeited(move.error.value) else Played(after))
    && (if move.error.Some? then after == before else LegalStep(before, after, move.player))
    && !HasLine(a.lines, after, move.player.Other())
  }

  /** `m` records the legal game through `boards`, starting after `k` turns: only its last
      move may be an error and none of the earlier boards is decided. */
  ghost predicate LegalGame(a: Arena, boards: seq<Board>, k: nat, m: MatchResult) {
    var n := |m.moves|;
    && 1 <= n <= 9 - k && |boards| == n + 1
    && (forall i :: 0 <= i < n ==> RecordedMove(a, m.moves[i], k + i + 1, boards[i], boards[i + 1]))
    && (forall i :: 0 <= i < n ==> CheckWinner(a.lines, boards[i]).None?)
    && (forall i :: 0 <= i < n - 1 ==> m.moves[i].error.None?)
    && (if m.moves[n - 1].error.Some? then m.result == ForfeitOf(m.moves[n - 1].player)
        else CheckWinner(a.lines, boards[n]) == Some(m.result))
  }

  /** Every finished run records a legal game. */
  lemma {:induction false} HistoryIsLegal(a: Arena, board: Board, k: nat) returns (boards: seq<Board>)
    requires a.Fair() && Position(a.lines, board, k) && k < 9
    requires PlayFrom(a, board, k).Finished?
    ensures boards != [] && boards[0] == board
    ensures LegalGame(a, boards, k, PlayFrom(a, board, k).result)
    decreases 9 - k
  {
    var turn := a.turn(board, k);
    if turn.Forfeited? {
      boards := [board, board];
      LastMove(a, board, board, k, PlayFrom(a, board, k).result);
    } else {
      var next := turn.board;
      PositionStep(a.lines, board, next, k);
      if CheckWinner(a.lines, next).None? {
        var rest := HistoryIsLegal(a, next, k + 1);
        boards := [board] + rest;
        ExtendHistory(a, board, k, a.Record(k, next, None), rest, PlayFrom(a, next, k + 1).result);
      } else {
        boards := [board, next];
        LastMove(a, board, next, k, PlayFrom(a, board, k).result);
      }
    }
  }

  lemma LastMove(a: Arena, board: Board, after: Board, k: nat, m: MatchResult)
    requires Position(a.lines, board, k) && k < 9 && |m.moves| == 1
    requires m.moves[0] == a.Record(k, after, m.moves[0].error)
    requires a.turn(board, k) == if m.moves[0].error.Some? then Forfeited(m.moves[0].error.value) else Played(after)
    requires if m.moves[0].error.Some? then after == board && m.result == ForfeitOf(MoverAt(k))
             else LegalStep(board, after, MoverAt(k)) && CheckWinner(a.lines, after) == Some(m.result)
    ensures LegalGame(a, [board, after], k, m)
  {
    if m.moves[0].error.None? {
      PositionStep(a.lines, board, after, k);
    }
    assert RecordedMove(a, m.moves[0], k + 1, board, after);
  }

  lemma ExtendHistory(a: Arena, board: Board, k: nat, move: Move, rest: seq<Board>, m: MatchResult)
    requires k < 9 && LegalGame(a, rest, k + 1, m)
    requires RecordedMove(a, move, k + 1, board, rest[0]) && move.error.None? && CheckWinner(a.lines, board).None?
    ensures LegalGame(a, [board] + rest, k, m.(moves := [move] + m.moves))
  {
    var boards, moves := [board] + rest, [move] + m.moves;
    forall i | 0 <= i < |moves|
      ensures RecordedMove(a, moves[i], k + i + 1, boards[i], boards[i + 1])
    {
      if i > 0 {
        assert RecordedMove(a, m.moves[i - 1], k + 1 + (i - 1) + 1, rest[i - 1], rest[i]);
      }
    }
  }

  /** After `i` moves of a legal game from the empty board the marks are split evenly. */
  lemma {:induction false} MarksAlternate(a: Arena, boards: seq<Board>, m: MatchResult, i: nat)
    requires LegalGame(a, boards, 0, m) && boards[0] == EMPTY_BOARD && i < |m.moves|
    ensures Position(a.lines, boards[i], i)
  {
    if i == 0 {
      EmptyBoardPosition(a.lines);
    } else {
      MarksAlternate(a, boards, m, i - 1);
      assert RecordedMove(a, m.moves[i - 1], i, boards[i - 1], boards[i]);
      PositionStep(a.lines, boards[i - 1], boards[i], i - 1);
    }
  }

  /** The last move of a recorded game, and the position it was made from. */
  lemma LastTurn(a: Arena, boards: seq<Board>, m: MatchResult)
    requires LegalGame(a, boards, 0, m) && boards[0] == EMPTY_BOARD
    ensures var n := |m.moves|; var last := m.moves[n - 1];
      && RecordedMove(a, last, n, boards[n - 1], boards[n])
      && (last.error.None? ==> (CheckWinner(a.lines, boards[n]) == Some(Cat) ==> n == 9)
                               && (n == 9 ==> CheckWinner(a.lines, boards[n]).Some?))
  {
    var n := |m.moves|;
    var last := m.moves[n - 1];
    assert RecordedMove(a, last, n, boards[n - 1], boards[n]);
    MarksAlternate(a, boards, m, n - 1);
    if last.error.None? {
      PositionStep(a.lines, boards[n - 1], boards[n], n - 1);
    }
  }

  /** What each outcome says about a legal game from the empty board: a win goes to the
      last mover, who completed a line; a forfeit is charged to the last mover; and a cat
      game is nine moves without error or line. */
  lemma OutcomeMeaning(a: Arena, boards: seq<Board>, m: MatchResult, p: Player)
    requires LegalGame(a, boards, 0, m) && boards[0] == EMPTY_BOARD
    ensures var n := |m.moves|; var last := m.moves[n - 1];
      && (m.result == WinOf(p) <==> last.error.None? && last.player == p && HasLine(a.lines, boards[n], p))
      && (m.result == ForfeitOf(p) <==> last.error.Some? && last.player == p)
      && (m.result == Cat <==> n == 9 && last.error.None? && !HasLine(a.lines, boards[n], last.player))
  {
    var last := m.moves[|m.moves| - 1];
    LastTurn(a, boards, m);
    assert p == last.player || p == last.player.Other();
  }
}
