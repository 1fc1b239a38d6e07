/** A match between two bots that may answer anything. */
module MatchRunner {
  import opened Boards
  import opened Engine
  import opened MatchLoop

  /** What one turn request produces: the decoded response, a `URLError`, or any other
      exception (a bare timeout while reading, malformed JSON, a board that is not text). */
  datatype Reply =
    | Response(board: Option<string>, error: Option<string>)
    | UrlError(text: string)
    | OtherException

  /** A bot answers a turn number, its symbol and the board text; it may be adversarial. */
  type Pod = (nat, Player, string) -> Reply

  function PlayTurn(pod: Pod, player: Player, board: Board, moveNumber: nat): Turn
    requires |board| == CELLS
  {
    match pod(moveNumber, player, BoardText(board))
    case UrlError(text) => Forfeited(HttpError(text))
    case OtherException => Raised
    case Response(text, error) =>
      if error.Some? && error.value != "" then Forfeited(BotError(error.value))
      else if text.None? || text.value == "" then Forfeited(NoOutput)
      else
        match Parsed(text.value)
        case None => Forfeited(Unparseable(text.value))
        case Some(next) =>
          ParseExact(text.value, next);
          match ValidateMove(board, next, player)
          case Some(e) => Forfeited(Illegal(e))
          case None => Played(next)
  }

  /** A turn is played exactly when the reply carries no error and writes a board that
      differs from the current one by one legal mark; only another exception escapes. */
  lemma PlayedIffLegalReply(pod: Pod, player: Player, board: Board, moveNumber: nat, next: Board)
    requires |board| == CELLS
    ensures var reply, turn := pod(moveNumber, player, BoardText(board)), PlayTurn(pod, player, board, moveNumber);
      && (turn == Played(next) <==>
            && reply.Response? && (reply.error.None? || reply.error.value == "")
            && reply.board.Some? && Writes(reply.board.value, next) && LegalStep(board, next, player))
      && (turn == Raised <==> reply == OtherException)
  {
    var reply := pod(moveNumber, player, BoardText(board));
    if reply.Response? && reply.board.Some? {
      ParseExact(reply.board.value, next);
      if Parsed(reply.board.value) == Some(next) {
        AcceptedIffLegal(board, next, player);
      }
    }
  }

  /** And each error is recorded for exactly the replies it is meant for, the first that
      applies: network error, reported error, no output, no board, no legal move. */
  lemma ErrorsAreExact(pod: Pod, player: Player, board: Board, moveNumber: nat, text: string, e: MoveError)
    requires |board| == CELLS
    ensures var reply, turn := pod(moveNumber, player, BoardText(board)), PlayTurn(pod, player, board, moveNumber);
      var answered := reply.Response? && (reply.error.None? || reply.error.value == "");
      && (turn == Forfeited(HttpError(text)) <==> reply == UrlError(text))
      && (turn == Forfeited(BotError(text)) <==> reply.Response? && reply.error == Some(text) && text != "")
      && (turn == Forfeited(NoOutput) <==> answered && (reply.board.None? || reply.board.value == ""))
      && (turn == Forfeited(Unparseable(text)) <==>
            answered && reply.board == Some(text) && text != "" && forall b: Board :: !Writes(text, b))
      && (turn == Forfeited(Illegal(e)) <==>
            answered && reply.board.Some? && exists b: Board ::
              Writes(reply.board.value, b) && |b| == |board| && ValidateMove(board, b, player) == Some(e))
  {
    var reply := pod(moveNumber, player, BoardText(board));
    if reply.Response? && reply.board.Some? {
      TextsWriteOneBoard(reply.board.value);
    }
  }

  /** A text writes at most one board, and the empty text none. */
  lemma TextsWriteOneBoard(text: string)
    ensures forall b: Board :: Writes(text, b) <==> Parsed(text) == Some(b)
    ensures text == "" ==> Parsed(text).None?
  {
    forall b: Board
      ensures Writes(text, b) <==> Parsed(text) == Some(b)
    {
      ParseExact(text, b);
    }
  }

  /** The match between `podX` and `podO`. */
  function ArenaOf(podX: Pod, podO: Pod): Arena {
    Arena(WINNING_LINES,
          (b: Board) => if |b| == CELLS then BoardText(b) else "",
          (b: Board, k: nat) =>
            if |b| != CELLS then Raised
            else if MoverAt(k) == X then PlayTurn(podX, X, b, k + 1)
            else PlayTurn(podO, O, b, k + 1))
  }

  lemma ArenaTurn(podX: Pod, podO: Pod, b: Board, k: nat)
    requires |b| == CELLS
    ensures MoverAt(k) == X ==> ArenaOf(podX, podO).turn(b, k) == PlayTurn(podX, X, b, k + 1)
    ensures MoverAt(k) == O ==> ArenaOf(podX, podO).turn(b, k) == PlayTurn(podO, O, b, k + 1)
  {
  }

  /** A whole match. Looking up a pod's address may raise, before the first turn. */
  function MatchOf(podX: Option<Pod>, podO: Option<Pod>): Run {
    if podX.None? || podO.None? then Aborted(0) else PlayFrom(ArenaOf(podX.value, podO.value), EMPTY_BOARD, 0)
  }

  method RunMatch(podX: Option<Pod>, podO: Option<Pod>) returns (run: Run)
    ensures run == MatchOf(podX, podO)
  {
    if podX.None? {
      return Aborted(0);
    }
    if podO.None? {
      return Aborted(0);
    }
    run := TakeTurns(ArenaOf(podX.value, podO.value));
  }

  lemma ArenaIsFair(podX: Pod, podO: Pod)
    ensures ArenaOf(podX, podO).Fair()
  {
    var a := ArenaOf(podX, podO);
    forall b: Board, k: nat, next: Board | |b| == CELLS && a.turn(b, k) == Played(next)
      ensures LegalStep(b, next, MoverAt(k))
    {
      PlayedIffLegalReply(if MoverAt(k) == X then podX else podO, MoverAt(k), b, k + 1, next);
    }
  }

  /** The turn after `n` accepted ones is reached, and the bot to move answers it with
      an exception other than `URLError`. */
  ghost predicate ExceptionAfter(podX: Pod, podO: Pod, n: nat) {
    exists b: Board :: Leads(ArenaOf(podX, podO), EMPTY_BOARD, 0, b, n) && |b| == CELLS
      && (if MoverAt(n) == X then podX(n + 1, X, BoardText(b)) else podO(n + 1, O, BoardText(b))) == OtherException
  }

  lemma RaisedExactly(podX: Pod, podO: Pod, b: Board, n: nat)
    requires |b| == CELLS
    ensures ArenaOf(podX, podO).turn(b, n) == Raised <==>
      (if MoverAt(n) == X then podX(n + 1, X, BoardText(b)) else podO(n + 1, O, BoardText(b))) == OtherException
  {
    PlayedIffLegalReply(podX, X, b, n + 1, []);
    PlayedIffLegalReply(podO, O, b, n + 1, []);
  }

  lemma RaisesIffException(podX: Pod, podO: Pod, n: nat)
    requires n < 9
    ensures RaisesAfter(ArenaOf(podX, podO), EMPTY_BOARD, 0, n) <==> ExceptionAfter(podX, podO, n)
  {
    var a := ArenaOf(podX, podO);
    ArenaIsFair(podX, podO);
    EmptyBoardPosition(a.lines);
    if b: Board :| Leads(a, EMPTY_BOARD, 0, b, n) && a.turn(b, n) == Raised {
      LeadsToPosition(a, EMPTY_BOARD, 0, b, n);
      RaisedExactly(podX, podO, b, n);
    }
    if ExceptionAfter(podX, podO, n) {
      var b: Board :| Leads(a, EMPTY_BOARD, 0, b, n) && |b| == CELLS
        && (if MoverAt(n) == X then podX(n + 1, X, BoardText(b)) else podO(n + 1, O, BoardText(b))) == OtherException;
      RaisedExactly(podX, podO, b, n);
    }
  }

  /** The loop leaves a match without a result exactly when a reached turn is answered by
      an exception other than `URLError`, such as a read timeout: that is no forfeit. */
  lemma LoopAbortsExactly(podX: Pod, podO: Pod, n: nat)
    ensures PlayFrom(ArenaOf(podX, podO), EMPTY_BOARD, 0) == Aborted(n + 1) <==>
      n < 9 && ExceptionAfter(podX, podO, n)
  {
    AbortedExactly(ArenaOf(podX, podO), EMPTY_BOARD, 0, n);
    if n < 9 {
      RaisesIffException(podX, podO, n);
    }
  }

  /** So a match ends before its first turn exactly when a look-up raises, and at a later
      turn exactly when both succeed and that turn is answered by such an exception. */
  lemma AbortsExactlyOnException(podX: Option<Pod>, podO: Option<Pod>, n: nat)
    ensures MatchOf(podX, podO) == Aborted(0) <==> podX.None? || podO.None?
    ensures MatchOf(podX, podO) == Aborted(n + 1) <==>
      podX.Some? && podO.Some? && n < 9 && ExceptionAfter(podX.value, podO.value, n)
  {
    if podX.Some? && podO.Some? {
      LoopAbortsExactly(podX.value, podO.value, n);
    }
  }

  /** A timeout is not always a forfeit: X's first turn, answered by another exception than
      `URLError`, leaves the match without a result. */
  lemma TimeoutIsNoForfeit(podO: Pod)
    ensures var podX: Pod := (_, _, _) => OtherException; MatchOf(Some(podX), Some(podO)) == Aborted(1)
  {
    var podX: Pod := (_, _, _) => OtherException;
    ArenaTurn(podX, podO, EMPTY_BOARD, 0);
  }

  lemma FinishedIsLegal(podX: Pod, podO: Pod) returns (boards: seq<Board>)
    requires PlayFrom(ArenaOf(podX, podO), EMPTY_BOARD, 0).Finished?
    ensures boards != [] && boards[0] == EMPTY_BOARD
    ensures LegalGame(ArenaOf(podX, podO), boards, 0, PlayFrom(ArenaOf(podX, podO), EMPTY_BOARD, 0).result)
  {
    ArenaIsFair(podX, podO);
    EmptyBoardPosition(ArenaOf(podX, podO).lines);
    boards := HistoryIsLegal(ArenaOf(podX, podO), EMPTY_BOARD, 0);
  }

  /** Every match has a result unless a turn it reaches raises another exception, and
      its recorded history is a legal game from the empty board. */
  lemma EveryMatchIsALegalGame(podX: Pod, podO: Pod) returns (boards: seq<Board>)
    ensures var a := ArenaOf(podX, podO); var run := PlayFrom(a, EMPTY_BOARD, 0);
      && !run.FellThrough?
      && (run.Aborted? ==> ExceptionAfter(podX, podO, run.turn - 1))
      && (run.Finished? ==> boards != [] && boards[0] == EMPTY_BOARD && LegalGame(a, boards, 0, run.result))
  {
    var a := ArenaOf(podX, podO);
    ArenaIsFair(podX, podO);
    EmptyBoardPosition(a.lines);
    MatchIsTotal(a, EMPTY_BOARD, 0);
    var run := PlayFrom(a, EMPTY_BOARD, 0);
    boards := [];
    if run.Aborted? {
      LoopAbortsExactly(podX, podO, run.turn - 1);
    }
    if run.Finished? {
      boards := FinishedIsLegal(podX, podO);
    }
  }

  /** Each recorded text reads back as the board it was printed from. */
  lemma RecordedTextReadsBack(podX: Pod, podO: Pod, boards: seq<Board>, m: MatchResult, i: nat)
    requires LegalGame(ArenaOf(podX, podO), boards, 0, m) && i < |m.moves|
    ensures Parsed(m.moves[i].board) == Some(boards[i + 1])
  {
    assert RecordedMove(ArenaOf(podX, podO), m.moves[i], i + 1, boards[i], boards[i + 1]);
    PrintThenParse(boards[i + 1]);
  }
}
