/** The referee's pure rules: board text, winner detection and move validation. */
module Engine {
  import opened Boards
  import opened PyText

  // ---------------------------------------------------------------- board text

  function CellText(cell: Cell): string {
    match cell
    case Empty => "."
    case Mark(X) => "X"
    case Mark(O) => "O"
  }

  function CellOf(text: string): Option<Cell> {
    if text == "X" then Some(Mark(X))
    else if text == "O" then Some(Mark(O))
    else if text == "." then Some(Empty)
    else None
  }

  function RowText(row: seq<Cell>): string {
    Join(seq(|row|, i requires 0 <= i < |row| => CellText(row[i])), "|")
  }

  function BoardText(b: Board): string
    requires |b| == CELLS
  {
    Join([RowText(b[0..3]), RowText(b[3..6]), RowText(b[6..9])], "\n")
  }

  function RowCells(text: string): Option<seq<Cell>> {
    var cells := SplitOn(text, '|');
    if |cells| == 3 && forall i :: 0 <= i < 3 ==> CellOf(cells[i]).Some? then
      Some([CellOf(cells[0]).value, CellOf(cells[1]).value, CellOf(cells[2]).value])
    else None
  }

  function RowsCells(rows: seq<string>): Option<Board> {
    if rows == [] then Some([])
    else
      match RowCells(rows[0])
      case Some(row) => Onto(row, RowsCells(rows[1..]))
      case None => None
  }

  /** The board a text stands for, if any. */
  function Parsed(text: string): Option<Board> {
    var rows := SplitLines(Strip(text));
    if |rows| == 3 then RowsCells(rows) else None
  }

  method ParseBoard(text: string) returns (r: Option<Board>)
    ensures r == Parsed(text)
  {
    var rows := SplitLines(Strip(text));
    if |rows| != 3 {
      return None;
    }
    var board: Board := [];
    for i := 0 to |rows|
      invariant RowsCells(rows) == Onto(board, RowsCells(rows[i..]))
    {
      assert rows[i..][1..] == rows[i + 1..];
      var cells := SplitOn(rows[i], '|');
      if |cells| != 3 || exists k :: 0 <= k < 3 && CellOf(cells[k]).None? {
        return None;
      }
      var row := [CellOf(cells[0]).value, CellOf(cells[1]).value, CellOf(cells[2]).value];
      OntoOnto(board, row, RowsCells(rows[i + 1..]));
      board := board + row;
    }
    r := Some(board);
  }

  function Onto(front: Board, rest: Option<Board>): (r: Option<Board>)
    ensures front == [] ==> r == rest
    ensures rest == Some([]) ==> r == Some(front)
  {
    match rest
    case Some(b) => assert [] + b == b && front + [] == front; Some(front + b)
    case None => None
  }

  lemma OntoOnto(front: Board, row: Board, rest: Option<Board>)
    ensures Onto(front, Onto(row, rest)) == Onto(front + row, rest)
  {
    if rest.Some? {
      assert front + (row + rest.value) == front + row + rest.value;
    }
  }

  lemma CellTextOf(text: string, cell: Cell)
    ensures CellOf(text) == Some(cell) <==> text == CellText(cell)
    ensures |CellText(cell)| == 1 && '|' !in CellText(cell) && !IsSpace(CellText(cell)[0])
  {
    match cell {
      case Empty =>
      case Mark(p) => assert p == X || p == O;
    }
  }

  lemma JoinThree(x: string, y: string, z: string, sep: string)
    ensures Join([x, y, z], sep) == x + sep + (y + sep + z)
  {
    assert [x, y, z][1..] == [y, z] && [y, z][1..] == [z];
    assert Join([z], sep) == z;
    assert Join([y, z], sep) == y + sep + z;
  }

  lemma RowsCellsOfThree(rows: seq<string>, x: Board, y: Board, z: Board)
    requires |rows| == 3
    ensures RowCells(rows[0]) == Some(x) && RowCells(rows[1]) == Some(y) && RowCells(rows[2]) == Some(z) ==>
              RowsCells(rows) == Some(x + y + z)
    ensures RowsCells(rows).Some? ==>
              RowCells(rows[0]).Some? && RowCells(rows[1]).Some? && RowCells(rows[2]).Some?
  {
    var last, two := rows[2..], rows[1..];
    assert last[1..] == [] && two[1..] == last;
    assert RowsCells(last) == match RowCells(rows[2]) { case Some(row) => Some(row) case None => None };
    assert RowsCells(two).Some? ==> RowCells(rows[1]).Some? && RowsCells(last).Some?;
    assert x + (y + z) == x + y + z;
  }

  lemma RowTextOfThree(x: Cell, y: Cell, z: Cell)
    ensures RowText([x, y, z]) == CellText(x) + "|" + (CellText(y) + "|" + CellText(z))
  {
    var row := [x, y, z];
    var parts := seq(|row|, i requires 0 <= i < |row| => CellText(row[i]));
    JoinThree(CellText(x), CellText(y), CellText(z), "|");
    assert parts == [CellText(x), CellText(y), CellText(z)];
  }

  lemma AcceptedRow(text: string, row: seq<Cell>)
    requires RowCells(text) == Some(row)
    ensures |row| == 3 && text == RowText(row)
  {
    var parts := SplitOn(text, '|');
    JoinSplit(text, '|');
    CellTextOf(parts[0], row[0]); CellTextOf(parts[1], row[1]); CellTextOf(parts[2], row[2]);
    var texts := seq(|row|, i requires 0 <= i < |row| => CellText(row[i]));
    assert parts == texts;
  }

  lemma PrintedRow(row: seq<Cell>)
    requires |row| == 3
    ensures RowCells(RowText(row)) == Some(row)
  {
    var texts := seq(|row|, i requires 0 <= i < |row| => CellText(row[i]));
    CellTextOf(texts[0], row[0]); CellTextOf(texts[1], row[1]); CellTextOf(texts[2], row[2]);
    SplitJoin(texts, '|');
    assert [row[0], row[1], row[2]] == row;
  }

  /** A row text is accepted exactly when it is the printed form of its three cells. */
  lemma RowExact(text: string, row: seq<Cell>)
    ensures RowCells(text) == Some(row) <==> |row| == 3 && text == RowText(row)
  {
    if RowCells(text) == Some(row) {
      AcceptedRow(text, row);
    } else if |row| == 3 {
      PrintedRow(row);
    }
  }

  lemma RowTextShape(row: seq<Cell>)
    requires |row| == 3
    ensures |RowText(row)| == 5 && OneLine(RowText(row))
    ensures !IsSpace(RowText(row)[0]) && !IsSpace(RowText(row)[4])
    ensures forall i :: 0 <= i < 5 ==> RowText(row)[i] != '\n'
  {
    assert row == [row[0], row[1], row[2]];
    RowTextOfThree(row[0], row[1], row[2]);
    CellTextOf("", row[0]); CellTextOf("", row[1]); CellTextOf("", row[2]);
  }

  /** `text` writes `b`: its three printed rows separated by single line breaks of any
      kind, with any white space around them. */
  ghost predicate Writes(text: string, b: Board) {
    && |b| == CELLS
    && exists pre, brk, brk', post :: Blank(pre) && IsBreak(brk) && IsBreak(brk') && Blank(post) &&
         text == pre + (RowText(b[0..3]) + brk + (RowText(b[3..6]) + brk' + RowText(b[6..9]))) + post
  }

  lemma SplitThreeRows(r0: string, brk: string, r1: string, brk': string, r2: string)
    requires OneLine(r0) && OneLine(r1) && OneLine(r2) && IsBreak(brk) && IsBreak(brk')
    requires r0 != "" && r1 != "" && r2 != ""
    ensures SplitLines(r0 + brk + (r1 + brk' + r2)) == [r0, r1, r2]
  {
    SplitOneLine(r2);
    SplitFirstLine(r1, brk', r2);
    SplitFirstLine(r0, brk, r1 + brk' + r2);
  }

  lemma SplitCore(b: Board, brk: string, brk': string)
    requires |b| == CELLS && IsBreak(brk) && IsBreak(brk')
    ensures var core := RowText(b[0..3]) + brk + (RowText(b[3..6]) + brk' + RowText(b[6..9]));
            && core != "" && Trimmed(core)
            && SplitLines(core) == [RowText(b[0..3]), RowText(b[3..6]), RowText(b[6..9])]
  {
    RowTextShape(b[0..3]); RowTextShape(b[3..6]); RowTextShape(b[6..9]);
    SplitThreeRows(RowText(b[0..3]), brk, RowText(b[3..6]), brk', RowText(b[6..9]));
  }

  lemma ThreeRowsOf(b: Board)
    requires |b| == CELLS
    ensures RowsCells([RowText(b[0..3]), RowText(b[3..6]), RowText(b[6..9])]) == Some(b)
  {
    var r0, r1, r2 := RowText(b[0..3]), RowText(b[3..6]), RowText(b[6..9]);
    RowExact(r0, b[0..3]); RowExact(r1, b[3..6]); RowExact(r2, b[6..9]);
    RowsCellsOfThree([r0, r1, r2], b[0..3], b[3..6], b[6..9]);
    assert b[0..3] + b[3..6] + b[6..9] == b;
  }

  lemma ParsedIfWrites(text: string, b: Board)
    requires Writes(text, b)
    ensures Parsed(text) == Some(b)
  {
    var r0, r1, r2 := RowText(b[0..3]), RowText(b[3..6]), RowText(b[6..9]);
    var pre, brk, brk', post :| Blank(pre) && IsBreak(brk) && IsBreak(brk') && Blank(post) &&
      text == pre + (r0 + brk + (r1 + brk' + r2)) + post;
    SplitCore(b, brk, brk');
    StripIsCore(pre, r0 + brk + (r1 + brk' + r2), post);
    ThreeRowsOf(b);
  }

  lemma SliceThree(c0: Board, c1: Board, c2: Board)
    requires |c0| == |c1| == |c2| == 3
    ensures var b := c0 + c1 + c2; |b| == CELLS && b[0..3] == c0 && b[3..6] == c1 && b[6..9] == c2
  {
  }

  lemma CellsOfRows(rows: seq<string>, b: Board) returns (c0: Board, c1: Board, c2: Board)
    requires |rows| == 3 && RowsCells(rows) == Some(b)
    ensures RowCells(rows[0]) == Some(c0) && RowCells(rows[1]) == Some(c1) && RowCells(rows[2]) == Some(c2)
    ensures b == c0 + c1 + c2
  {
    RowsCellsOfThree(rows, [], [], []);
    c0, c1, c2 := RowCells(rows[0]).value, RowCells(rows[1]).value, RowCells(rows[2]).value;
    RowsCellsOfThree(rows, c0, c1, c2);
  }

  lemma RowsOf(rows: seq<string>, b: Board)
    requires |rows| == 3 && RowsCells(rows) == Some(b)
    ensures |b| == CELLS
    ensures rows == [RowText(b[0..3]), RowText(b[3..6]), RowText(b[6..9])]
  {
    var c0, c1, c2 := CellsOfRows(rows, b);
    RowExact(rows[0], c0); RowExact(rows[1], c1); RowExact(rows[2], c2);
    SliceThree(c0, c1, c2);
  }

  lemma BreakIsNotTrimmed(s: string, brk: string)
    ensures IsBreak(brk) ==> !Trimmed(s + brk)
  {
  }

  lemma Regroup(r0: string, brk: string, r1: string, brk': string, r2: string, tail: string)
    ensures r0 + brk + (r1 + brk' + (r2 + tail)) == r0 + brk + (r1 + brk' + r2) + tail
  {
  }

  lemma TakeThreeLines(core: string) returns (r0: string, brk: string, r1: string, brk': string, r2: string)
    requires |SplitLines(core)| == 3 && Trimmed(core)
    ensures SplitLines(core) == [r0, r1, r2] && core == r0 + brk + (r1 + brk' + r2)
    ensures IsBreak(brk) && IsBreak(brk')
  {
    var rest, rest', brk'', rest'';
    r0, brk, rest := TakeFirstLine(core);
    r1, brk', rest' := TakeFirstLine(rest);
    r2, brk'', rest'' := TakeFirstLine(rest');
    var body := r0 + brk + (r1 + brk' + r2);
    assert rest' == r2 + brk'';
    Regroup(r0, brk, r1, brk', r2, brk'');
    BreakIsNotTrimmed(body, brk'');
  }

  lemma WritesIfParsed(text: string, b: Board)
    requires Parsed(text) == Some(b)
    ensures Writes(text, b)
  {
    var pre, post := StripSplits(text);
    RowsOf(SplitLines(Strip(text)), b);
    var r0, brk, r1, brk', r2 := TakeThreeLines(Strip(text));
  }

  /** The accepted texts are exactly those that write a board. */
  lemma ParseExact(text: string, b: Board)
    ensures Parsed(text) == Some(b) <==> Writes(text, b)
  {
    if Writes(text, b) {
      ParsedIfWrites(text, b);
    }
    if Parsed(text) == Some(b) {
      WritesIfParsed(text, b);
    }
  }

  /** Printing a board and reading it back gives the board. */
  lemma PrintThenParse(b: Board)
    requires |b| == CELLS
    ensures Parsed(BoardText(b)) == Some(b)
  {
    var r0, r1, r2 := RowText(b[0..3]), RowText(b[3..6]), RowText(b[6..9]);
    JoinThree(r0, r1, r2, "\n");
    assert Blank("") && IsBreak("\n");
    assert BoardText(b) == "" + (r0 + "\n" + (r1 + "\n" + r2)) + "";
    ParsedIfWrites(BoardText(b), b);
  }

  function Letter(cell: Cell): char {
    match cell
    case Empty => '.'
    case Mark(p) => if p == X then 'X' else 'O'
  }

  lemma RowLetters(row: seq<Cell>)
    requires |row| == 3
    ensures RowText(row) == [Letter(row[0]), '|', Letter(row[1]), '|', Letter(row[2])]
  {
    assert row == [row[0], row[1], row[2]];
    RowTextOfThree(row[0], row[1], row[2]);
    LetterText(row[0]); LetterText(row[1]); LetterText(row[2]);
  }

  lemma LetterText(cell: Cell)
    ensures CellText(cell) == [Letter(cell)]
  {
    assert cell == Empty || cell == Mark(X) || cell == Mark(O) by {
      match cell {
        case Empty =>
        case Mark(p) => assert p == X || p == O;
      }
    }
  }

  lemma RowPlaces(r0: string, r1: string, r2: string, text: string)
    requires |r0| == |r1| == |r2| == 5 && text == r0 + "\n" + (r1 + "\n" + r2)
    ensures |text| == 17 && text[5] == '\n' && text[11] == '\n'
    ensures text[0] == r0[0] && text[1] == r0[1] && text[2] == r0[2] && text[3] == r0[3] && text[4] == r0[4]
    ensures text[6] == r1[0] && text[7] == r1[1] && text[8] == r1[2] && text[9] == r1[3] && text[10] == r1[4]
    ensures text[12] == r2[0] && text[13] == r2[1] && text[14] == r2[2] && text[15] == r2[3] && text[16] == r2[4]
  {
  }

  lemma LettersInPlace(b: Board, text: string)
    requires |b| == CELLS && |text| == 17 && text[5] == '\n' && text[11] == '\n'
    requires text[0] == Letter(b[0]) && text[1] == '|' && text[2] == Letter(b[1]) && text[3] == '|' && text[4] == Letter(b[2])
    requires text[6] == Letter(b[3]) && text[7] == '|' && text[8] == Letter(b[4]) && text[9] == '|' && text[10] == Letter(b[5])
    requires text[12] == Letter(b[6]) && text[13] == '|' && text[14] == Letter(b[7]) && text[15] == '|' && text[16] == Letter(b[8])
    ensures forall i :: 0 <= i < CELLS ==> text[2 * i] == Letter(b[i])
    ensures forall i :: 0 <= i < CELLS - 1 ==> text[2 * i + 1] == if i == 2 || i == 5 then '\n' else '|'
  {
  }

  /** The text of a board, letter by letter: 17 characters, cell i at place 2 * i, a newline
      after the cells 2 and 5 and a bar after every other but the last. */
  lemma BoardLetters(b: Board)
    requires |b| == CELLS
    ensures |BoardText(b)| == 17
    ensures forall i :: 0 <= i < CELLS ==> BoardText(b)[2 * i] == Letter(b[i])
    ensures forall i :: 0 <= i < CELLS - 1 ==> BoardText(b)[2 * i + 1] == if i == 2 || i == 5 then '\n' else '|'
  {
    RowLetters(b[0..3]); RowLetters(b[3..6]); RowLetters(b[6..9]);
    JoinThree(RowText(b[0..3]), RowText(b[3..6]), RowText(b[6..9]), "\n");
    RowPlaces(RowText(b[0..3]), RowText(b[3..6]), RowText(b[6..9]), BoardText(b));
    LettersInPlace(b, BoardText(b));
  }

  // ---------------------------------------------------------------- outcomes

  datatype Outcome = XWins | OWins | XForfeit | OForfeit | Cat

  function WinOf(p: Player): Outcome {
    if p == X then XWins else OWins
  }

  /** The outcome of a board no bot has forfeited, if the game is over. */
  function CheckWinner(lines: seq<seq<nat>>, b: Board): (r: Option<Outcome>)
    ensures r.None? <==> !HasLine(lines, b, X) && !HasLine(lines, b, O) && Empty in b
    ensures r == Some(Cat) <==> !HasLine(lines, b, X) && !HasLine(lines, b, O) && Empty !in b
    ensures forall p: Player :: r == Some(WinOf(p)) ==> HasLine(lines, b, p)
    ensures r != Some(XForfeit) && r != Some(OForfeit)
  {
    match Winner(lines, b)
    case Some(p) => assert p == X || p == O; Some(WinOf(p))
    case None => if Empty !in b then Some(Cat) else None
  }

  // ---------------------------------------------------------------- move validation

  datatype MoveError =
    | NoMoveMade
    | CellsChanged(n: nat)
    | AlreadyOccupied(cell: nat)
    | WrongSymbol(placed: Cell, expected: Player)

  /** The cells on which two boards differ, in row-major order. */
  function Changes(before: Board, after: Board): (cs: seq<nat>)
    requires |before| == |after|
    ensures forall k :: 0 <= k < |cs| ==> cs[k] < |before| && before[cs[k]] != after[cs[k]]
  {
    if before == [] then []
    else
      var last := |before| - 1;
      var cs := Changes(before[..last], after[..last]);
      if before[last] != after[last] then cs + [last] else cs
  }

  lemma {:induction false} ChangesExact(before: Board, after: Board)
    requires |before| == |after|
    ensures forall j, k :: 0 <= j < k < |Changes(before, after)| ==> Changes(before, after)[j] < Changes(before, after)[k]
    ensures forall c :: 0 <= c < |before| && before[c] != after[c] ==> c in Changes(before, after)
  {
    if before != [] {
      ChangesExact(before[..|before| - 1], after[..|before| - 1]);
    }
  }

  function Differing(before: Board, after: Board): set<nat>
    requires |before| == |after|
  {
    set c: nat | c < |before| && before[c] != after[c]
  }

  lemma {:induction false} ChangesCount(before: Board, after: Board)
    requires |before| == |after|
    ensures |Changes(before, after)| == |Differing(before, after)|
  {
    if before != [] {
      var last := |before| - 1;
      ChangesCount(before[..last], after[..last]);
      var fewer := Differing(before[..last], after[..last]);
      assert Differing(before, after) == if before[last] != after[last] then fewer + {last} else fewer;
    }
  }

  lemma ChangedAlone(before: Board, after: Board, c: nat)
    requires |before| == |after| && c < |before| && after[c] != before[c] && after == before[c := after[c]]
    ensures Changes(before, after) == [c]
  {
    ChangesCount(before, after);
    assert Differing(before, after) == {c};
    var cs := Changes(before, after);
    assert before[cs[0]] != after[cs[0]];
    assert cs == [cs[0]];
  }

  lemma OnlyChange(before: Board, after: Board, c: nat)
    requires |before| == |after| && Changes(before, after) == [c]
    ensures c < |before| && after[c] != before[c] && after == before[c := after[c]]
  {
    ChangesExact(before, after);
    assert Changes(before, after)[0] == c;
    forall k | 0 <= k < |before| && before[k] != after[k]
      ensures k == c
    {
      assert k in Changes(before, after);
    }
  }

  /** A single change is the update of one cell. */
  lemma OneChange(before: Board, after: Board, c: nat)
    requires |before| == |after|
    ensures Changes(before, after) == [c] <==>
      c < |before| && after[c] != before[c] && after == before[c := after[c]]
  {
    if Changes(before, after) == [c] {
      OnlyChange(before, after, c);
    } else if c < |before| && after[c] != before[c] && after == before[c := after[c]] {
      ChangedAlone(before, after, c);
    }
  }

  function ValidateMove(before: Board, after: Board, symbol: Player): Option<MoveError>
    requires |before| == |after|
  {
    var changes := Changes(before, after);
    if changes == [] then Some(NoMoveMade)
    else if |changes| > 1 then Some(CellsChanged(|changes|))
    else
      var c := changes[0];
      if before[c] != Empty then Some(AlreadyOccupied(c))
      else if after[c] != Mark(symbol) then Some(WrongSymbol(after[c], symbol))
      else None
  }

  /** A move is accepted exactly when it marks one empty cell with the mover's symbol. */
  lemma AcceptedIffLegal(before: Board, after: Board, symbol: Player)
    requires |before| == |after|
    ensures ValidateMove(before, after, symbol).None? <==> LegalStep(before, after, symbol)
  {
    var cs := Changes(before, after);
    if |cs| == 1 {
      OneChange(before, after, cs[0]);
    }
    if c: nat :| c < |before| && before[c] == Empty && after == before[c := Mark(symbol)] {
      OneChange(before, after, c);
    }
  }

  lemma RefusalsByCount(before: Board, after: Board, symbol: Player)
    requires |before| == |after|
    ensures var r := ValidateMove(before, after, symbol);
      && (r == Some(NoMoveMade) <==> before == after)
      && (r.Some? && r.value.CellsChanged? <==> |Differing(before, after)| > 1)
      && (r.Some? && r.value.CellsChanged? ==> r.value.n == |Differing(before, after)|)
  {
    ChangesExact(before, after);
    ChangesCount(before, after);
  }

  lemma OccupiedExactly(before: Board, after: Board, symbol: Player, c: nat)
    requires |before| == |after|
    ensures ValidateMove(before, after, symbol) == Some(AlreadyOccupied(c)) <==>
      c < |before| && before[c] != Empty && after[c] != before[c] && after == before[c := after[c]]
  {
    OneChange(before, after, c);
  }

  lemma WrongSymbolIsOther(before: Board, after: Board, symbol: Player)
    requires |before| == |after|
    requires ValidateMove(before, after, symbol).Some? && ValidateMove(before, after, symbol).value.WrongSymbol?
    ensures LegalStep(before, after, symbol.Other())
  {
    var c := Changes(before, after)[0];
    assert Changes(before, after) == [c];
    OneChange(before, after, c);
    assert after[c] == Mark(symbol.Other());
  }

  lemma OtherIsWrongSymbol(before: Board, after: Board, symbol: Player)
    requires |before| == |after| && LegalStep(before, after, symbol.Other())
    ensures ValidateMove(before, after, symbol) == Some(WrongSymbol(Mark(symbol.Other()), symbol))
  {
    var c: nat :| c < |before| && before[c] == Empty && after == before[c := Mark(symbol.Other())];
    ChangedAlone(before, after, c);
  }

  /** And a refusal names what is wrong with it. */
  lemma RefusalsAreExact(before: Board, after: Board, symbol: Player, c: nat)
    requires |before| == |after|
    ensures var r := ValidateMove(before, after, symbol);
      && (r == Some(NoMoveMade) <==> before == after)
      && (r.Some? && r.value.CellsChanged? <==> |Differing(before, after)| > 1)
      && (r.Some? && r.value.CellsChanged? ==> r.value.n == |Differing(before, after)|)
      && (r == Some(AlreadyOccupied(c)) <==>
            c < |before| && before[c] != Empty && after[c] != before[c] && after == before[c := after[c]])
      && (r.Some? && r.value.WrongSymbol? <==> LegalStep(before, after, symbol.Other()))
  {
    RefusalsByCount(before, after, symbol);
    OccupiedExactly(before, after, symbol, c);
    if LegalStep(before, after, symbol.Other()) {
      OtherIsWrongSymbol(before, after, symbol);
    }
    if ValidateMove(before, after, symbol).Some? && ValidateMove(before, after, symbol).value.WrongSymbol? {
      WrongSymbolIsOther(before, after, symbol);
    }
  }
}
