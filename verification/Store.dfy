/** The `bots`, `matches` and `moves` tables, and how a finished match is recorded. */
module Store {
  import opened Boards
  import opened Engine
  import opened MatchLoop

  datatype Bot = Bot(id: nat, baseName: string, versionedName: string, version: nat, runtimeKey: string,
                     podName: Option<string>, podReady: bool)

  datatype MatchRow = MatchRow(id: nat, botX: nat, botO: nat, winner: Option<nat>, result: Outcome, correlationId: string)

  datatype MoveRow = MoveRow(matchId: nat, number: nat, bot: nat, board: string, error: Option<TurnError>)

  /** The winner a result stands for: the other side wins a forfeited match. */
  function WinnerOf(result: Outcome, botX: nat, botO: nat): Option<nat> {
    match result
    case XWins => Some(botX)
    case OForfeit => Some(botX)
    case OWins => Some(botO)
    case XForfeit => Some(botO)
    case Cat => None
  }

  function SideOf(p: Player, botX: nat, botO: nat): nat {
    if p == X then botX else botO
  }

  function MoveRows(matchId: nat, botX: nat, botO: nat, moves: seq<Move>): (rows: seq<MoveRow>)
    ensures |rows| == |moves|
  {
    seq(|moves|, i requires 0 <= i < |moves| =>
      MoveRow(matchId, moves[i].number, SideOf(moves[i].player, botX, botO), moves[i].board, moves[i].error))
  }

  /** The row of a finished match. */
  function RowOf(id: nat, botX: nat, botO: nat, result: MatchResult, correlationId: string): MatchRow {
    MatchRow(id, botX, botO, WinnerOf(result.result, botX, botO), result.result, correlationId)
  }

  class MatchRepository {
    var matches: seq<MatchRow>
    var moves: seq<MoveRow>
    var nextId: nat

    constructor ()
      ensures matches == [] && moves == [] && nextId == 1
    {
      matches, moves, nextId := [], [], 1;
    }

    /** Adds one match row and one move row per move. */
    method Record(botX: nat, botO: nat, result: MatchResult, correlationId: string)
      modifies this
      ensures nextId == old(nextId) + 1
      ensures matches == old(matches) + [RowOf(old(nextId), botX, botO, result, correlationId)]
      ensures moves == old(moves) + MoveRows(old(nextId), botX, botO, result.moves)
    {
      var winner: Option<nat>;
      if result.result == XWins || result.result == OForfeit {
        winner := Some(botX);
      } else if result.result == OWins || result.result == XForfeit {
        winner := Some(botO);
      } else {
        winner := None;
      }
      var matchId := nextId;
      nextId := nextId + 1;
      matches := matches + [MatchRow(matchId, botX, botO, winner, result.result, correlationId)];
      ghost var rows := MoveRows(matchId, botX, botO, result.moves);
      for i := 0 to |result.moves|
        invariant nextId == old(nextId) + 1
        invariant matches == old(matches) + [RowOf(old(nextId), botX, botO, result, correlationId)]
        invariant moves == old(moves) + rows[..i]
      {
        var move := result.moves[i];
        var bot := if move.player == X then botX else botO;
        assert rows[..i + 1] == rows[..i] + [rows[i]];
        moves := moves + [MoveRow(matchId, move.number, bot, move.board, move.error)];
      }
      assert rows[..|result.moves|] == rows;
    }
  }

  /** What is stored for a legal game: a clean win goes to the bot that moved last and
      completed a line, a forfeit to the bot that did not move last, and there is no
      winner exactly when nine moves without error filled the board without a line. */
  lemma StoredWinner(a: Arena, boards: seq<Board>, m: MatchResult, botX: nat, botO: nat)
    requires LegalGame(a, boards, 0, m) && boards[0] == EMPTY_BOARD
    ensures var n := |m.moves|; var last := m.moves[n - 1]; var winner := WinnerOf(m.result, botX, botO);
      && (winner == None <==> n == 9 && last.error.None? && !HasLine(a.lines, boards[n], last.player))
      && (last.error.None? && HasLine(a.lines, boards[n], last.player) ==>
            winner == Some(SideOf(last.player, botX, botO)))
      && (last.error.Some? ==> winner == Some(SideOf(last.player.Other(), botX, botO)))
  {
    OutcomeMeaning(a, boards, m, X);
    OutcomeMeaning(a, boards, m, O);
  }

  /** The stored move rows alternate between the two bots, X first, numbered from 1. */
  lemma StoredMoves(a: Arena, boards: seq<Board>, m: MatchResult, matchId: nat, botX: nat, botO: nat, i: nat)
    requires LegalGame(a, boards, 0, m) && i < |m.moves|
    ensures MoveRows(matchId, botX, botO, m.moves)[i] ==
      MoveRow(matchId, i + 1, if i % 2 == 0 then botX else botO, a.text(boards[i + 1]), m.moves[i].error)
    ensures m.moves[i].error.Some? ==> i == |m.moves| - 1
  {
    assert RecordedMove(a, m.moves[i], i + 1, boards[i], boards[i + 1]);
  }

  /** The rows stored for the game `m` of two bots through `boards`: the match row has both
      bots, the result and the winner the game gives, and each move row the number, the side
      and the board text of its move. */
  ghost predicate StoresGame(a: Arena, boards: seq<Board>, m: MatchResult, row: MatchRow, moves: seq<MoveRow>) {
    && LegalGame(a, boards, 0, m) && boards[0] == EMPTY_BOARD && |moves| == |m.moves| && row.result == m.result
    && (var n := |m.moves|; var last := m.moves[n - 1];
        && (row.winner == None <==> n == 9 && last.error.None? && !HasLine(a.lines, boards[n], last.player))
        && (last.error.None? && HasLine(a.lines, boards[n], last.player) ==>
              row.winner == Some(SideOf(last.player, row.botX, row.botO)))
        && (last.error.Some? ==> row.winner == Some(SideOf(last.player.Other(), row.botX, row.botO))))
    && (forall i :: 0 <= i < |moves| ==>
          moves[i] == MoveRow(row.id, i + 1, if i % 2 == 0 then row.botX else row.botO, a.text(boards[i + 1]), m.moves[i].error))
  }

  lemma GameIsStored(a: Arena, boards: seq<Board>, m: MatchResult, id: nat, botX: nat, botO: nat, correlationId: string)
    requires LegalGame(a, boards, 0, m) && boards[0] == EMPTY_BOARD
    ensures StoresGame(a, boards, m, RowOf(id, botX, botO, m, correlationId), MoveRows(id, botX, botO, m.moves))
  {
    StoredWinner(a, boards, m, botX, botO);
    forall i | 0 <= i < |m.moves|
      ensures MoveRows(id, botX, botO, m.moves)[i] ==
        MoveRow(id, i + 1, if i % 2 == 0 then botX else botO, a.text(boards[i + 1]), m.moves[i].error)
    {
      StoredMoves(a, boards, m, id, botX, botO, i);
    }
  }
}
