/** The human-vs-bot page's pure logic: the browser's own board text and the reducer. */
module PlayState {
  import opened Boards
  import opened PyText
  import opened Engine

  // ---------------------------------------------------------------- the browser's board text

  /** The browser's board: rows of cell texts, of any shape a reply may give them. */
  type Grid = seq<seq<string>>

  function Texts(row: seq<Cell>): seq<string> {
    seq(|row|, i requires 0 <= i < |row| => CellText(row[i]))
  }

  function GridOf(b: Board): Grid
    requires |b| == CELLS
  {
    [Texts(b[0..3]), Texts(b[3..6]), Texts(b[6..9])]
  }

  function JoinRows(rows: Grid): seq<string> {
    seq(|rows|, i requires 0 <= i < |rows| => Join(rows[i], "|"))
  }

  function SplitRows(rows: seq<string>): Grid {
    seq(|rows|, i requires 0 <= i < |rows| => SplitOn(rows[i], '|'))
  }

  function GridText(g: Grid): string {
    Join(JoinRows(g), "\n")
  }

  function ParseGrid(text: string): Grid {
    SplitRows(SplitOn(text, '\n'))
  }

  /** The browser's print and parse lose nothing on any text. */
  lemma PrintOfParse(text: string)
    ensures GridText(ParseGrid(text)) == text
  {
    var rows := SplitOn(text, '\n');
    forall i | 0 <= i < |rows|
      ensures Join(SplitOn(rows[i], '|'), "|") == rows[i]
    {
      JoinSplit(rows[i], '|');
    }
    assert JoinRows(SplitRows(rows)) == rows;
    JoinSplit(text, '\n');
  }

  lemma RowTextSplits(row: seq<Cell>)
    requires |row| == 3
    ensures RowText(row) == Join(Texts(row), "|") && SplitOn(RowText(row), '|') == Texts(row)
  {
    var texts := seq(|row|, i requires 0 <= i < |row| => CellText(row[i]));
    assert texts == Texts(row);
    CellTextOf("", row[0]); CellTextOf("", row[1]); CellTextOf("", row[2]);
    SplitJoin(Texts(row), '|');
  }

  lemma ThreeRowsJoin(g: Grid, r0: string, r1: string, r2: string)
    requires |g| == 3 && Join(g[0], "|") == r0 && Join(g[1], "|") == r1 && Join(g[2], "|") == r2
    ensures GridText(g) == Join([r0, r1, r2], "\n")
  {
    assert JoinRows(g) == [r0, r1, r2];
  }

  /** The browser prints a board as the server does. */
  lemma GridTextIsBoardText(b: Board)
    requires |b| == CELLS
    ensures GridText(GridOf(b)) == BoardText(b)
  {
    RowTextSplits(b[0..3]); RowTextSplits(b[3..6]); RowTextSplits(b[6..9]);
    ThreeRowsJoin(GridOf(b), RowText(b[0..3]), RowText(b[3..6]), RowText(b[6..9]));
  }

  lemma ThreeLinesSplit(r0: string, r1: string, r2: string)
    requires '\n' !in r0 && '\n' !in r1 && '\n' !in r2
    ensures ParseGrid(Join([r0, r1, r2], "\n")) == [SplitOn(r0, '|'), SplitOn(r1, '|'), SplitOn(r2, '|')]
  {
    SplitJoin([r0, r1, r2], '\n');
  }

  lemma BoardTextSplits(b: Board)
    requires |b| == CELLS
    ensures ParseGrid(BoardText(b)) == GridOf(b)
  {
    RowTextShape(b[0..3]); RowTextShape(b[3..6]); RowTextShape(b[6..9]);
    RowTextSplits(b[0..3]); RowTextSplits(b[3..6]); RowTextSplits(b[6..9]);
    ThreeLinesSplit(RowText(b[0..3]), RowText(b[3..6]), RowText(b[6..9]));
  }

  /** The browser reads a text as board `b` exactly when the text is `b` as it is printed:
      of all the texts the server accepts for `b`, that one only. */
  lemma BrowserReadsExactly(text: string, b: Board)
    requires |b| == CELLS
    ensures ParseGrid(text) == GridOf(b) <==> text == BoardText(b)
  {
    BoardTextSplits(b);
    GridTextIsBoardText(b);
    PrintOfParse(text);
  }

  // ---------------------------------------------------------------- the end of the game

  /** `Throws` is the exception for a missing row; a line may also be one of missing cells. */
  datatype Verdict = Throws | Line(cell: Option<string>) | CatGame | Open

  function CellAt(g: Grid, pos: nat): Option<string>
    requires pos / 3 < |g|
  {
    if pos % 3 < |g[pos / 3]| then Some(g[pos / 3][pos % 3]) else None
  }

  predicate RowsReach(g: Grid, line: seq<nat>) {
    forall k :: 0 <= k < |line| ==> line[k] / 3 < |g|
  }

  predicate SameCells(g: Grid, line: seq<nat>)
    requires RowsReach(g, line)
  {
    line != [] && CellAt(g, line[0]) != Some(".") && forall k :: 0 <= k < |line| ==> CellAt(g, line[k]) == CellAt(g, line[0])
  }

  predicate NoDots(g: Grid) {
    forall row :: row in g ==> "." !in row
  }

  function CheckGrid(lines: seq<seq<nat>>, g: Grid): Verdict {
    if lines == [] then if NoDots(g) then CatGame else Open
    else if !RowsReach(g, lines[0]) then Throws
    else if SameCells(g, lines[0]) then Line(CellAt(g, lines[0][0]))
    else CheckGrid(lines[1..], g)
  }

  /** Line `k` stops the scan: a row is missing, or its cells are the same and no dots. */
  predicate Stops(lines: seq<seq<nat>>, g: Grid, k: nat) {
    k < |lines| && (RowsReach(g, lines[k]) ==> SameCells(g, lines[k]))
  }

  /** The first line that stops the scan, or the number of lines. */
  function FirstStop(lines: seq<seq<nat>>, g: Grid): (k: nat)
    ensures k <= |lines| && (k < |lines| ==> Stops(lines, g, k)) && forall j: nat :: j < k ==> !Stops(lines, g, j)
  {
    if lines == [] || Stops(lines, g, 0) then 0
    else
      var k := 1 + FirstStop(lines[1..], g);
      assert forall j: nat :: 0 < j < |lines| ==> (Stops(lines, g, j) <==> Stops(lines[1..], g, j - 1));
      k
  }

  /** The first line that stops the scan decides; without one, a board without dots does. */
  lemma {:induction false} VerdictExact(lines: seq<seq<nat>>, g: Grid)
    ensures var k := FirstStop(lines, g);
      CheckGrid(lines, g) ==
        if k == |lines| then if NoDots(g) then CatGame else Open
        else if RowsReach(g, lines[k]) then Line(CellAt(g, lines[k][0]))
        else Throws
  {
    if lines != [] && !Stops(lines, g, 0) {
      VerdictExact(lines[1..], g);
    }
  }

  /** Lines that name cells of the board. */
  ghost predicate Fits(lines: seq<seq<nat>>) {
    forall k :: 0 <= k < |lines| ==> FitsLine(lines[k])
  }

  ghost predicate FitsLine(line: seq<nat>) {
    line != [] && forall k :: 0 <= k < |line| ==> line[k] < CELLS
  }

  lemma CellOfGrid(b: Board, pos: nat)
    requires |b| == CELLS && pos < CELLS
    ensures pos / 3 < 3 && CellAt(GridOf(b), pos) == Some(CellText(b[pos]))
  {
    var row := pos / 3;
    assert row == 0 || row == 1 || row == 2;
  }

  lemma SameCellsIffOwned(b: Board, line: seq<nat>)
    requires |b| == CELLS && FitsLine(line)
    ensures RowsReach(GridOf(b), line)
    ensures SameCells(GridOf(b), line) <==> Owns(b, line, X) || Owns(b, line, O)
    ensures SameCells(GridOf(b), line) ==> Owns(b, line, X) == (CellAt(GridOf(b), line[0]) == Some("X"))
  {
    forall k | 0 <= k < |line|
      ensures line[k] / 3 < 3 && CellAt(GridOf(b), line[k]) == Some(CellText(b[line[k]]))
      ensures CellOf(CellText(b[line[k]])) == Some(b[line[k]])
    {
      CellOfGrid(b, line[k]);
      CellTextOf(CellText(b[line[k]]), b[line[k]]);
    }
  }

  lemma NoDotsIffFull(b: Board)
    requires |b| == CELLS
    ensures NoDots(GridOf(b)) <==> Empty !in b
  {
    if c: nat :| c < |b| && b[c] == Empty {
      CellOfGrid(b, c);
      assert GridOf(b)[c / 3] in GridOf(b) && "." in GridOf(b)[c / 3];
    }
  }

  /** On a board, the browser's verdict is the referee's. */
  function VerdictOf(r: Option<Outcome>): Verdict {
    match r
    case Some(XWins) => Line(Some("X"))
    case Some(OWins) => Line(Some("O"))
    case Some(_) => CatGame
    case None => Open
  }

  lemma {:induction false} BrowserVerdict(lines: seq<seq<nat>>, b: Board)
    requires |b| == CELLS && Fits(lines)
    ensures CheckGrid(lines, GridOf(b)) == VerdictOf(CheckWinner(lines, b))
  {
    if lines == [] {
      NoDotsIffFull(b);
    } else {
      SameCellsIffOwned(b, lines[0]);
      BrowserVerdict(lines[1..], b);
      CellOfGrid(b, lines[0][0]);
    }
  }

  lemma LinesFit()
    ensures Fits(WINNING_LINES)
  {
  }

  // ---------------------------------------------------------------- the reducer

  datatype Whose = Human | Bot | Over

  /** The page's constants; `thrown` is the engine's message for reading a missing row. */
  datatype Context = Context(lines: seq<seq<nat>>, playerName: string, botName: string, humanSymbol: Player, thrown: string)

  datatype PageState = PageState(board: Grid, whose: Whose, status: string, ended: bool)

  function TurnCaption(ctx: Context, whose: Whose): string {
    (if whose.Human? then ctx.playerName else ctx.botName) + "'s Turn"
  }

  function EndCaption(ctx: Context, winner: string): string {
    if winner == "cat" then "Cat game"
    else if winner == CellText(Mark(ctx.humanSymbol)) then ctx.playerName + " wins"
    else ctx.botName + " wins"
  }

  function InitialState(ctx: Context): PageState {
    var whose := if ctx.humanSymbol == X then Human else Bot;
    PageState(GridOf(EMPTY_BOARD), whose, TurnCaption(ctx, whose), false)
  }

  /** The state after a move that makes `board`, or none if looking for a winner throws. */
  function Settled(ctx: Context, board: Grid, next: Whose): Option<PageState> {
    match CheckGrid(ctx.lines, board)
    case Throws => None
    case Line(cell) =>
      if cell.Some? && cell.value != "" then Some(PageState(board, Over, EndCaption(ctx, cell.value), true))
      else Some(PageState(board, next, TurnCaption(ctx, next), false))
    case CatGame => Some(PageState(board, Over, EndCaption(ctx, "cat"), true))
    case Open => Some(PageState(board, next, TurnCaption(ctx, next), false))
  }

  function ApplyHumanMove(s: PageState, ctx: Context, index: nat): Option<PageState> {
    var r, c := index / 3, index % 3;
    if s.ended || !s.whose.Human? then Some(s)
    else if |s.board| <= r then None
    else if |s.board[r]| <= c || s.board[r][c] != "." then Some(s)
    else Settled(ctx, s.board[r := s.board[r][c := CellText(Mark(ctx.humanSymbol))]], Bot)
  }

  function ApplyBotMove(s: PageState, ctx: Context, text: string): Option<PageState> {
    if s.ended then Some(s) else Settled(ctx, ParseGrid(text), Human)
  }

  function ApplyForfeit(s: PageState, reason: string): PageState {
    PageState(s.board, Over, "Game over: " + reason, true)
  }

  lemma GridAfterMove(b: Board, index: nat, p: Player)
    requires |b| == CELLS && index < CELLS
    ensures var g, r, c := GridOf(b), index / 3, index % 3;
      r < 3 && |g[r]| == 3 && g[r][c] == CellText(b[index]) && g[r := g[r][c := CellText(Mark(p))]] == GridOf(b[index := Mark(p)])
  {
    var g, after := GridOf(b), b[index := Mark(p)];
    var r, c := index / 3, index % 3;
    assert index == 3 * r + c;
    assert r == 0 || r == 1 || r == 2;
    assert g[r][c := CellText(Mark(p))] == GridOf(after)[r];
    assert forall k :: 0 <= k < 3 && k != r ==> g[k] == GridOf(after)[k];
  }
}
