/** The perfect bot as a program, and what it achieves in refereed matches. */
module PerfectBot {
  import opened Boards
  import opened PyText
  import opened Engine
  import opened Game
  import opened Strategy
  import opened Classic
  import Loop = MatchLoop
  import Runner = MatchRunner
  import Server = TurnServer

  /** `text` is the board `b` after the move the search picks for `me`. */
  ghost predicate IsBestReply(g: Rules, b: Board, me: Player, text: string) {
    exists c: nat :: IsFirstBest(g, b, me, me, c) && |b| == CELLS && text == BoardText(b[c := Mark(me)])
  }

  lemma TextLines(b: Board)
    requires |b| == CELLS
    ensures var text := BoardText(b);
      && text != "" && Trimmed(text)
      && SplitLines(text) == [RowText(b[0..3]), RowText(b[3..6]), RowText(b[6..9])]
  {
    JoinThree(RowText(b[0..3]), RowText(b[3..6]), RowText(b[6..9]), "\n");
    SplitCore(b, "\n", "\n");
  }

  lemma LinesAfterSymbol(symbol: string, text: string)
    requires |symbol| == 1 && !IsSpace(symbol[0]) && text != "" && Trimmed(text)
    ensures SplitLines(Strip(symbol + "\n" + text)) == [symbol] + SplitLines(text)
  {
    SplitFirstLine(symbol, "\n", text);
    StripOfTrimmed(symbol + "\n" + text);
  }

  lemma InputLines(me: Player, b: Board)
    requires |b| == CELLS
    ensures SplitLines(Strip(CellText(Mark(me)) + "\n" + BoardText(b))) == [CellText(Mark(me))] + SplitLines(BoardText(b))
  {
    CellTextOf("", Mark(me));
    TextLines(b);
    LinesAfterSymbol(CellText(Mark(me)), BoardText(b));
  }

  /** What the program makes of its input: a symbol and the three rows of a board. */
  ghost predicate Reads(stdin: string, me: Player, b: Board) {
    var data := SplitLines(Strip(stdin));
    |data| == 4 && CellOf(data[0]) == Some(Mark(me)) && RowsCells(data[1..]) == Some(b)
  }

  /** It reads what the turn server sends. */
  lemma InputReads(me: Player, b: Board)
    requires |b| == CELLS
    ensures Reads(CellText(Mark(me)) + "\n" + BoardText(b), me, b)
  {
    InputLines(me, b);
    TextLines(b);
    ThreeRowsOf(b);
    CellTextOf(CellText(Mark(me)), Mark(me));
    assert ([CellText(Mark(me))] + SplitLines(BoardText(b)))[1..] == SplitLines(BoardText(b));
  }

  /** Stripping the printed board gives the board text. */
  lemma OutputReads(b: Board)
    requires |b| == CELLS
    ensures Strip(BoardText(b) + "\n") == BoardText(b)
  {
    TextLines(b);
    assert Blank("") && Blank("\n") && BoardText(b) + "\n" == "" + BoardText(b) + "\n";
    StripIsCore("", BoardText(b), "\n");
  }

  /** The program: read the symbol and the board, search, mark the cell, print. On a finished
      board there is no move to unpack, which raises and prints nothing. */
  method Program(stdin: string, ghost me: Player, ghost b: Board) returns (stdout: Option<string>)
    requires Reads(stdin, me, b)
    ensures stdout.None? <==> Ended(CLASSIC, b)
    ensures stdout.Some? ==> IsBestReply(CLASSIC, b, me, Strip(stdout.value))
  {
    var data := SplitLines(Strip(stdin));
    RowsOf(data[1..], b);
    ClassicIsValid();
    var symbol := CellOf(data[0]).value.player;
    var cells := RowsCells(data[1..]).value;
    var board := new Cell[CELLS](i requires 0 <= i < CELLS => cells[i]);
    assert board[..] == b;
    var _, move := Minimax(CLASSIC, board, symbol, symbol);
    if move.None? {
      return None;
    }
    board[move.value] := Mark(symbol);
    stdout := Some(BoardText(board[..]) + "\n");
    assert board[..] == b[move.value := Mark(me)];
    OutputReads(b[move.value := Mark(me)]);
  }

  // ---------------------------------------------------------------- in a refereed match

  /** Playing for `me`, the pod answers every unfinished board with the search's move. */
  ghost predicate AnswersPerfectly(pod: Runner.Pod, me: Player) {
    forall n: nat, b: Board :: |b| == CELLS && !Ended(CLASSIC, b) ==>
      BestResponse(b, me, pod(n, me, BoardText(b)))
  }

  ghost predicate BestResponse(b: Board, me: Player, reply: Runner.Reply) {
    reply.Response? && reply.error.None? && reply.board.Some? && IsBestReply(CLASSIC, b, me, reply.board.value)
  }

  /** On every move of `me` the arena plays the search's move. */
  ghost predicate PlaysPerfectly(g: Rules, a: Loop.Arena, me: Player) {
    forall b: Board, k: nat :: |b| == CELLS && !Ended(g, b) && Loop.MoverAt(k) == me ==>
      a.turn(b, k).Played? && exists c: nat :: IsFirstBest(g, b, me, me, c) && a.turn(b, k).board == b[c := Mark(me)]
  }

  lemma UndecidedIsNotEnded(g: Rules, b: Board)
    ensures Ended(g, b) <==> CheckWinner(g.lines, b).Some?
  {
    FullIffNoEmpties(b);
  }

  /** The turn on `b` keeps to safe boards, or only the opponent fails in it. */
  ghost predicate SafeTurn(a: Loop.Arena, safe: (Board, nat) -> bool, b: Board, k: nat, me: Player) {
    match a.turn(b, k)
    case Played(next) => SafeNext(CheckWinner(a.lines, next), safe, next, k, me)
    case _ => Loop.MoverAt(k) == me.Other()
  }

  ghost predicate SafeNext(outcome: Option<Outcome>, safe: (Board, nat) -> bool, next: Board, k: nat, me: Player) {
    if outcome.None? then k < 8 && safe(next, k + 1)
    else outcome.value != WinOf(me.Other()) && outcome.value != Loop.ForfeitOf(me)
  }

  /** If every turn on a safe board is safe, then from a safe board `me` neither loses nor
      forfeits, and only the opponent's reply can leave the match without a result. */
  lemma {:induction false} SafeToTheEnd(a: Loop.Arena, safe: (Board, nat) -> bool, board: Board, k: nat, me: Player)
    requires forall b: Board, j: nat :: j < 9 && safe(b, j) ==> SafeTurn(a, safe, b, j, me)
    requires k < 9 && safe(board, k)
    ensures var run := Loop.PlayFrom(a, board, k);
      && (run.Finished? ==> run.result.result != WinOf(me.Other()) && run.result.result != Loop.ForfeitOf(me))
      && (run.Aborted? ==> Loop.MoverAt(run.turn - 1) == me.Other())
    decreases 9 - k
  {
    var turn := a.turn(board, k);
    assert SafeTurn(a, safe, board, k, me);
    if turn.Played? && CheckWinner(a.lines, turn.board).None? {
      SafeToTheEnd(a, safe, turn.board, k + 1, me);
    }
  }

  lemma TurnIsSafe(g: Rules, a: Loop.Arena, safe: (Board, nat) -> bool, board: Board, k: nat, me: Player)
    requires g.Valid() && g.cells == CELLS && a.lines == g.lines && a.Fair() && PlaysPerfectly(g, a, me)
    requires Loop.Position(g.lines, board, k) && k < 9
    requires Value(g, board, Loop.MoverAt(k), me) >= 0
    requires forall b: Board, j: nat :: Loop.Position(g.lines, b, j) && Value(g, b, Loop.MoverAt(j), me) >= 0 ==> safe(b, j)
    ensures SafeTurn(a, safe, board, k, me)
  {
    UndecidedIsNotEnded(g, board);
    assert Loop.MoverAt(k) == me || Loop.MoverAt(k) == me.Other();
    if a.turn(board, k).Played? {
      var next := a.turn(board, k).board;
      UndecidedIsNotEnded(g, next);
      TurnKeepsValue(g, a, board, k, me);
      Loop.PositionStep(g.lines, board, next, k);
      assert Loop.MoverAt(k + 1) == Loop.MoverAt(k).Other();
      if Ended(g, next) {
        NotLostWhenEnded(g, next, Loop.MoverAt(k + 1), me);
      }
    }
  }

  /** From a position it does not lose by force, the searching side does not lose. */
  lemma NeverLosesFrom(g: Rules, a: Loop.Arena, board: Board, k: nat, me: Player)
    requires g.Valid() && g.cells == CELLS && a.lines == g.lines && a.Fair() && PlaysPerfectly(g, a, me)
    requires Loop.Position(g.lines, board, k) && k < 9
    requires Value(g, board, Loop.MoverAt(k), me) >= 0
    ensures var run := Loop.PlayFrom(a, board, k);
      && (run.Finished? ==> run.result.result != WinOf(me.Other()) && run.result.result != Loop.ForfeitOf(me))
      && (run.Aborted? ==> Loop.MoverAt(run.turn - 1) == me.Other())
  {
    ghost var safe := (b: Board, j: nat) => Loop.Position(g.lines, b, j) && Value(g, b, Loop.MoverAt(j), me) >= 0;
    forall b: Board, j: nat | j < 9 && safe(b, j)
      ensures SafeTurn(a, safe, b, j, me)
    {
      TurnIsSafe(g, a, safe, b, j, me);
    }
    SafeToTheEnd(a, safe, board, k, me);
  }

  lemma TurnKeepsValue(g: Rules, a: Loop.Arena, board: Board, k: nat, me: Player)
    requires a.Fair() && PlaysPerfectly(g, a, me) && |board| == CELLS && !Ended(g, board)
    requires a.turn(board, k).Played?
    ensures LegalStep(board, a.turn(board, k).board, Loop.MoverAt(k))
    ensures Value(g, a.turn(board, k).board, Loop.MoverAt(k).Other(), me) >= Value(g, board, Loop.MoverAt(k), me)
  {
    StepKeepsValue(g, board, a.turn(board, k).board, Loop.MoverAt(k), me);
  }

  lemma NotLostWhenEnded(g: Rules, b: Board, toMove: Player, me: Player)
    requires g.Valid() && |b| == g.cells && Ended(g, b) && Value(g, b, toMove, me) >= 0
    ensures CheckWinner(g.lines, b) != Some(WinOf(me.Other()))
  {
    CountTotal(b);
  }

  lemma PerfectTurn(pod: Runner.Pod, me: Player, b: Board, n: nat)
    requires |b| == CELLS && BestResponse(b, me, pod(n, me, BoardText(b)))
    ensures var turn := Runner.PlayTurn(pod, me, b, n);
      turn.Played? && exists c: nat :: IsFirstBest(CLASSIC, b, me, me, c) && turn.board == b[c := Mark(me)]
  {
    var text := pod(n, me, BoardText(b)).board.value;
    var c: nat :| IsFirstBest(CLASSIC, b, me, me, c) && |b| == CELLS && text == BoardText(b[c := Mark(me)]);
    var next := b[c := Mark(me)];
    PrintThenParse(next);
    ParseExact(text, next);
    assert LegalStep(b, next, me);
    Runner.PlayedIffLegalReply(pod, me, b, n, next);
  }

  lemma PerfectArenaTurn(podX: Runner.Pod, podO: Runner.Pod, me: Player, b: Board, k: nat)
    requires AnswersPerfectly(if me == X then podX else podO, me)
    requires |b| == CELLS && !Ended(CLASSIC, b) && Loop.MoverAt(k) == me
    ensures var turn := Runner.ArenaOf(podX, podO).turn(b, k);
      turn.Played? && exists c: nat :: IsFirstBest(CLASSIC, b, me, me, c) && turn.board == b[c := Mark(me)]
  {
    Runner.ArenaTurn(podX, podO, b, k);
    if me == X {
      assert BestResponse(b, X, podX(k + 1, X, BoardText(b)));
      PerfectTurn(podX, X, b, k + 1);
    } else {
      assert BestResponse(b, O, podO(k + 1, O, BoardText(b)));
      PerfectTurn(podO, O, b, k + 1);
    }
  }

  lemma PodsPlayPerfectly(podX: Runner.Pod, podO: Runner.Pod, me: Player)
    requires AnswersPerfectly(if me == X then podX else podO, me)
    ensures PlaysPerfectly(CLASSIC, Runner.ArenaOf(podX, podO), me)
  {
    forall b: Board, k: nat | |b| == CELLS && !Ended(CLASSIC, b) && Loop.MoverAt(k) == me
      ensures var turn := Runner.ArenaOf(podX, podO).turn(b, k);
        turn.Played? && exists c: nat :: IsFirstBest(CLASSIC, b, me, me, c) && turn.board == b[c := Mark(me)]
    {
      PerfectArenaTurn(podX, podO, me, b, k);
    }
  }

  /** The search's move, as a function of the board. */
  ghost function BestMove(b: Board, me: Player): (c: nat)
    requires !Ended(CLASSIC, b)
    ensures IsFirstBest(CLASSIC, b, me, me, c)
  {
    FirstBestExists(CLASSIC, b, me, me);
    var c: nat :| IsFirstBest(CLASSIC, b, me, me, c);
    c
  }

  /** On every unfinished board the pod's turn server has run the program. */
  ghost predicate RunsProgram(pod: Runner.Pod, me: Player) {
    forall n: nat, b: Board :: |b| == CELLS && !Ended(CLASSIC, b) ==> AnswersByProgram(b, me, pod(n, me, BoardText(b)))
  }

  ghost predicate AnswersByProgram(b: Board, me: Player, reply: Runner.Reply) {
    exists stdout, stderr :: IsBestReply(CLASSIC, b, me, Strip(stdout)) && reply == Server.RunBot(Server.Exited(stdout, stderr))
  }

  /** The turn server turns the program's output into the search's move. */
  lemma ProgramAnswersPerfectly(pod: Runner.Pod, me: Player)
    requires RunsProgram(pod, me)
    ensures AnswersPerfectly(pod, me)
  {
    forall n: nat, b: Board | |b| == CELLS && !Ended(CLASSIC, b)
      ensures BestResponse(b, me, pod(n, me, BoardText(b)))
    {
      assert AnswersByProgram(b, me, pod(n, me, BoardText(b)));
      ProgramReply(b, me, pod(n, me, BoardText(b)));
    }
  }

  lemma ProgramReply(b: Board, me: Player, reply: Runner.Reply)
    requires AnswersByProgram(b, me, reply)
    ensures BestResponse(b, me, reply)
  {
    var stdout, stderr :| IsBestReply(CLASSIC, b, me, Strip(stdout)) && reply == Server.RunBot(Server.Exited(stdout, stderr));
    var c: nat :| IsFirstBest(CLASSIC, b, me, me, c) && |b| == CELLS && Strip(stdout) == BoardText(b[c := Mark(me)]);
    TextLines(b[c := Mark(me)]);
  }

  /** What the turn server answers after a run of the program. */
  ghost function ProgramOutput(b: Board, me: Player): Runner.Reply
    requires |b| == CELLS && !Ended(CLASSIC, b)
  {
    Server.RunBot(Server.Exited(BoardText(b[BestMove(b, me) := Mark(me)]) + "\n", ""))
  }

  lemma OutputIsTheProgram(b: Board, me: Player)
    requires |b| == CELLS && !Ended(CLASSIC, b)
    ensures AnswersByProgram(b, me, ProgramOutput(b, me))
  {
    OutputReads(b[BestMove(b, me) := Mark(me)]);
  }

  ghost function ReplyFor(b: Option<Board>, me: Player): Runner.Reply {
    if b.Some? && |b.value| == CELLS && !Ended(CLASSIC, b.value) then ProgramOutput(b.value, me) else Runner.OtherException
  }

  /** A pod whose turn server runs the program exists. */
  lemma ProgramPod(me: Player) returns (pod: Runner.Pod)
    ensures RunsProgram(pod, me)
  {
    pod := (n: nat, p: Player, text: string) => ReplyFor(Parsed(text), p);
    forall n: nat, b: Board | |b| == CELLS && !Ended(CLASSIC, b)
      ensures AnswersByProgram(b, me, pod(n, me, BoardText(b)))
    {
      PrintThenParse(b);
      OutputIsTheProgram(b, me);
    }
  }

  /** The perfect bot never loses a match and never forfeits one, with either symbol and
      against any opponent. */
  lemma PerfectBotNeverLoses(podX: Runner.Pod, podO: Runner.Pod, me: Player)
    requires AnswersPerfectly(if me == X then podX else podO, me)
    ensures var run := Loop.PlayFrom(Runner.ArenaOf(podX, podO), EMPTY_BOARD, 0);
      && (run.Finished? ==> run.result.result != WinOf(me.Other()) && run.result.result != Loop.ForfeitOf(me))
      && (run.Aborted? ==> Loop.MoverAt(run.turn - 1) == me.Other())
  {
    ClassicIsValid();
    Runner.ArenaIsFair(podX, podO);
    PodsPlayPerfectly(podX, podO, me);
    Loop.EmptyBoardPosition(WINNING_LINES);
    EmptyBoardIsADraw(me);
    NeverLosesFrom(CLASSIC, Runner.ArenaOf(podX, podO), EMPTY_BOARD, 0, me);
  }

  /** Two perfect bots always finish with a cat game. */
  lemma PerfectBotsDraw(podX: Runner.Pod, podO: Runner.Pod)
    requires AnswersPerfectly(podX, X) && AnswersPerfectly(podO, O)
    ensures var run := Loop.PlayFrom(Runner.ArenaOf(podX, podO), EMPTY_BOARD, 0);
      run.Finished? && run.result.result == Cat
  {
    PerfectBotNeverLoses(podX, podO, X);
    PerfectBotNeverLoses(podX, podO, O);
    var boards := Runner.EveryMatchIsALegalGame(podX, podO);
  }
}
