/** The play page's server side: asking a bot pod for one move and checking its answer. */
module BotClient {
  import opened Boards
  import opened PyText
  import opened Engine
  import Runner = MatchRunner

  /** What the request to the pod produces: a timeout, a network error, a body that is not
      JSON, a JSON object (whose `board` may be missing or no string), or anything else. */
  datatype HttpAnswer =
    | TimedOut
    | Unreachable
    | NotJson
    | Object(board: Option<string>)
    | Unexpected

  datatype TurnResult = NewBoard(text: string) | BotForfeit(reason: string) | Escaped

  /** The only change from `before` to `after` is one empty cell that became `symbol`. */
  predicate OneSymbolPlaced(before: Board, after: Board, symbol: Player)
    requires |before| == |after|
  {
    var changes := Changes(before, after);
    |changes| == 1 && before[changes[0]] == Empty && after[changes[0]] == Mark(symbol)
  }

  function RequestBotTurn(answer: HttpAnswer, symbol: Player, board: string): TurnResult {
    match answer
    case TimedOut => BotForfeit("Bot took too long")
    case Unreachable => BotForfeit("Bot is unavailable")
    case Unexpected => Escaped
    case NotJson => BotForfeit("Bot returned an invalid move")
    case Object(text) =>
      if text.None? then BotForfeit("Bot returned an invalid move")
      else
        var before, after := Parsed(board), Parsed(text.value);
        if before.None? || after.None? then BotForfeit("Bot returned an invalid move")
        else
          ParseExact(board, before.value);
          ParseExact(text.value, after.value);
          if !OneSymbolPlaced(before.value, after.value, symbol) then BotForfeit("Bot returned an invalid move")
          else NewBoard(text.value)
  }

  /** The play page and the dispatcher accept the same moves: the legal ones. */
  lemma SameMovesAccepted(before: Board, after: Board, symbol: Player)
    requires |before| == |after|
    ensures OneSymbolPlaced(before, after, symbol) <==> ValidateMove(before, after, symbol).None?
    ensures OneSymbolPlaced(before, after, symbol) <==> LegalStep(before, after, symbol)
  {
    AcceptedIffLegal(before, after, symbol);
  }

  /** Both texts are boards, and the second is one legal mark of `symbol` after the first. */
  ghost predicate WritesMove(board: string, text: string, symbol: Player) {
    exists before, after :: Writes(board, before) && Writes(text, after) && LegalStep(before, after, symbol)
  }

  lemma MovePlaced(board: string, text: string, symbol: Player)
    requires Parsed(board).Some? && Parsed(text).Some?
    ensures Writes(board, Parsed(board).value) && Writes(text, Parsed(text).value)
    ensures WritesMove(board, text, symbol) <==> LegalStep(Parsed(board).value, Parsed(text).value, symbol)
  {
    ParseExact(board, Parsed(board).value);
    ParseExact(text, Parsed(text).value);
    if WritesMove(board, text, symbol) {
      var before, after :| Writes(board, before) && Writes(text, after) && LegalStep(before, after, symbol);
      ParseExact(board, before);
      ParseExact(text, after);
    }
  }

  lemma MoveParses(board: string, text: string, symbol: Player)
    requires WritesMove(board, text, symbol)
    ensures Parsed(board).Some? && Parsed(text).Some?
  {
    var before, after :| Writes(board, before) && Writes(text, after) && LegalStep(before, after, symbol);
    ParseExact(board, before);
    ParseExact(text, after);
  }

  lemma LegalIsGranted(symbol: Player, board: string, text: string)
    requires WritesMove(board, text, symbol)
    ensures RequestBotTurn(Object(Some(text)), symbol, board) == NewBoard(text)
  {
    MoveParses(board, text, symbol);
    MovePlaced(board, text, symbol);
    SameMovesAccepted(Parsed(board).value, Parsed(text).value, symbol);
  }

  lemma GrantedIsLegal(symbol: Player, board: string, text: string)
    requires RequestBotTurn(Object(Some(text)), symbol, board) == NewBoard(text)
    ensures WritesMove(board, text, symbol)
  {
    MovePlaced(board, text, symbol);
    SameMovesAccepted(Parsed(board).value, Parsed(text).value, symbol);
  }

  lemma TextIsPassedOn(answer: HttpAnswer, symbol: Player, board: string, text: string)
    requires RequestBotTurn(answer, symbol, board) == NewBoard(text)
    ensures answer == Object(Some(text))
  {
  }

  /** A turn is granted exactly when the requested board and the answer are texts that write
      boards one legal mark apart, and then the bot's own text is passed on. */
  lemma GrantedIffLegal(answer: HttpAnswer, symbol: Player, board: string, text: string)
    ensures RequestBotTurn(answer, symbol, board) == NewBoard(text) <==>
      answer == Object(Some(text)) && WritesMove(board, text, symbol)
  {
    if RequestBotTurn(answer, symbol, board) == NewBoard(text) {
      TextIsPassedOn(answer, symbol, board, text);
      GrantedIsLegal(symbol, board, text);
    } else if answer == Object(Some(text)) && WritesMove(board, text, symbol) {
      LegalIsGranted(symbol, board, text);
    }
  }

  /** The only ways not to grant a turn. */
  ghost predicate Refuses(answer: HttpAnswer, r: TurnResult) {
    match answer
    case TimedOut => r == BotForfeit("Bot took too long")
    case Unreachable => r == BotForfeit("Bot is unavailable")
    case Unexpected => r == Escaped
    case _ => r == BotForfeit("Bot returned an invalid move")
  }

  lemma GrantedOrRefused(answer: HttpAnswer, symbol: Player, board: string)
    ensures RequestBotTurn(answer, symbol, board).NewBoard? || Refuses(answer, RequestBotTurn(answer, symbol, board))
  {
  }

  /** The reason names what failed: the move is called invalid exactly when the answer is no
      JSON, or an object without a text that writes a legal move. */
  lemma ReasonsAreExact(answer: HttpAnswer, symbol: Player, board: string)
    ensures var r := RequestBotTurn(answer, symbol, board);
      && (r == BotForfeit("Bot took too long") <==> answer.TimedOut?)
      && (r == BotForfeit("Bot is unavailable") <==> answer.Unreachable?)
      && (r.Escaped? <==> answer.Unexpected?)
      && (r == BotForfeit("Bot returned an invalid move") <==>
            || answer.NotJson?
            || (answer.Object? && !(answer.board.Some? && WritesMove(board, answer.board.value, symbol))))
  {
    assert "Bot took too long"[4] == 't' && "Bot is unavailable"[4] == 'i' && "Bot returned an invalid move"[4] == 'r';
    if answer.Object? && answer.board.Some? {
      GrantedIffLegal(answer, symbol, board, answer.board.value);
    }
  }

  /** A reply of one string board and no error is accepted by the dispatcher exactly when
      the play page's server accepts it. */
  lemma SameRepliesAccepted(symbol: Player, before: Board, text: string, moveNumber: nat)
    requires |before| == CELLS
    ensures var pod: Runner.Pod := (_, _, _) => Runner.Response(Some(text), None);
      Runner.PlayTurn(pod, symbol, before, moveNumber).Played? <==>
        RequestBotTurn(Object(Some(text)), symbol, BoardText(before)) == NewBoard(text)
  {
    var pod: Runner.Pod := (_, _, _) => Runner.Response(Some(text), None);
    PrintThenParse(before);
    if Parsed(text).Some? {
      var after := Parsed(text).value;
      ParseExact(text, after);
      SameMovesAccepted(before, after, symbol);
    }
  }
}
