/** Tic-tac-toe boards shared by the referee, the play page and the bot. */
module Boards {
  datatype Option<+T> = None | Some(value: T)

  datatype Player = X | O {
    function Other(): Player {
      if this.X? then O else X
    }
  }

  datatype Cell = Empty | Mark(player: Player)

  /** A board is its cells in row-major order: row r, column c is cell 3 * r + c. */
  type Board = seq<Cell>

  const CELLS: nat := 9

  const EMPTY_BOARD: Board := [Empty, Empty, Empty, Empty, Empty, Empty, Empty, Empty, Empty]

  const WINNING_LINES: seq<seq<nat>> := [
    [0, 1, 2], [3, 4, 5], [6, 7, 8],
    [0, 3, 6], [1, 4, 7], [2, 5, 8],
    [0, 4, 8], [2, 4, 6]
  ]

  /** The number of cells holding `cell`. */
  function Count(b: Board, cell: Cell): nat {
    multiset(b)[cell]
  }

  /** The empty cells, in row-major order. */
  function Empties(b: Board): (es: seq<nat>)
    ensures forall k :: 0 <= k < |es| ==> es[k] < |b| && b[es[k]] == Empty
  {
    if b == [] then []
    else
      var last := |b| - 1;
      var es := Empties(b[..last]);
      if b[last] == Empty then es + [last] else es
  }

  lemma {:induction false} EmptiesAscend(b: Board)
    ensures forall j, k :: 0 <= j < k < |Empties(b)| ==> Empties(b)[j] < Empties(b)[k]
  {
    if b != [] {
      EmptiesAscend(b[..|b| - 1]);
    }
  }

  /** Every empty cell is listed. */
  lemma {:induction false} EmptyAt(b: Board, c: nat) returns (k: nat)
    requires c < |b| && b[c] == Empty
    ensures k < |Empties(b)| && Empties(b)[k] == c
  {
    var last := |b| - 1;
    if c == last {
      k := |Empties(b)| - 1;
    } else {
      k := EmptyAt(b[..last], c);
    }
  }

  /** `line` is completely filled by `p`. */
  predicate Owns(b: Board, line: seq<nat>, p: Player) {
    line != [] && forall k :: 0 <= k < |line| ==> line[k] < |b| && b[line[k]] == Mark(p)
  }

  /** `p` has some completely filled line. */
  predicate HasLine(lines: seq<seq<nat>>, b: Board, p: Player) {
    exists k :: 0 <= k < |lines| && Owns(b, lines[k], p)
  }

  /** The owner of the first completed line, scanning the lines in order. */
  function Winner(lines: seq<seq<nat>>, b: Board): (w: Option<Player>)
    ensures w.Some? ==> HasLine(lines, b, w.value)
    ensures w.None? ==> !HasLine(lines, b, X) && !HasLine(lines, b, O)
  {
    if lines == [] then None
    else if Owns(b, lines[0], X) then assert HasLine(lines, b, X); Some(X)
    else if Owns(b, lines[0], O) then assert HasLine(lines, b, O); Some(O)
    else
      var w := Winner(lines[1..], b);
      assert forall k :: 0 <= k < |lines[1..]| ==> lines[1..][k] == lines[k + 1];
      assert w.Some? ==> HasLine(lines, b, w.value) by {
        if w.Some? {
          var k :| 0 <= k < |lines[1..]| && Owns(b, lines[1..][k], w.value);
          assert Owns(b, lines[k + 1], w.value);
        }
      }
      assert forall p: Player, k :: 0 < k < |lines| && Owns(b, lines[k], p) ==> Owns(b, lines[1..][k - 1], p);
      w
  }

  /** Line `k` is completed by `p`, and no earlier line by anyone. */
  ghost predicate FirstCompleted(lines: seq<seq<nat>>, b: Board, k: nat, p: Player) {
    k < |lines| && Owns(b, lines[k], p) && forall j :: 0 <= j < k ==> !Owns(b, lines[j], X) && !Owns(b, lines[j], O)
  }

  /** The first completed line in scan order decides. */
  lemma {:induction false} WinnerIsFirst(lines: seq<seq<nat>>, b: Board, p: Player)
    ensures Winner(lines, b) == Some(p) <==> exists k: nat :: FirstCompleted(lines, b, k, p)
  {
    assert p == X || p == O;
    if lines != [] {
      OneOwner(b, lines[0]);
      if Owns(b, lines[0], X) || Owns(b, lines[0], O) {
        assert FirstCompleted(lines, b, 0, p) <==> Owns(b, lines[0], p);
      } else {
        WinnerIsFirst(lines[1..], b, p);
        if k: nat :| FirstCompleted(lines[1..], b, k, p) {
          FirstShifts(lines, b, k, p);
        }
        if k: nat :| FirstCompleted(lines, b, k, p) {
          FirstShifts(lines, b, k - 1, p);
        }
      }
    }
  }

  lemma OneOwner(b: Board, line: seq<nat>)
    ensures !(Owns(b, line, X) && Owns(b, line, O))
  {
    if Owns(b, line, X) {
      assert b[line[0]] == Mark(X);
    }
  }

  lemma FirstShifts(lines: seq<seq<nat>>, b: Board, k: nat, p: Player)
    requires lines != [] && !Owns(b, lines[0], X) && !Owns(b, lines[0], O)
    ensures FirstCompleted(lines[1..], b, k, p) <==> FirstCompleted(lines, b, k + 1, p)
  {
    var rest := lines[1..];
    assert forall j :: 0 <= j < |rest| ==> rest[j] == lines[j + 1];
    if FirstCompleted(rest, b, k, p) {
      forall j | 0 <= j < k + 1
        ensures !Owns(b, lines[j], X) && !Owns(b, lines[j], O)
      {
        assert j > 0 ==> lines[j] == rest[j - 1];
      }
    }
  }

  /** `b` becomes `b'` by `p` marking one empty cell. */
  ghost predicate LegalStep(b: Board, b': Board, p: Player) {
    exists c: nat :: c < |b| && b[c] == Empty && b' == b[c := Mark(p)]
  }

  lemma StepCounts(b: Board, b': Board, p: Player)
    requires LegalStep(b, b', p)
    ensures |b'| == |b|
    ensures Count(b', Mark(p)) == Count(b, Mark(p)) + 1
    ensures Count(b', Mark(p.Other())) == Count(b, Mark(p.Other()))
    ensures Count(b', Empty) == Count(b, Empty) - 1
  {
  }

  /** Only the player who moves can complete a line. */
  lemma StepLines(lines: seq<seq<nat>>, b: Board, b': Board, p: Player)
    requires LegalStep(b, b', p)
    ensures HasLine(lines, b', p.Other()) ==> HasLine(lines, b, p.Other())
    ensures HasLine(lines, b, p) ==> HasLine(lines, b', p)
  {
    var c: nat :| c < |b| && b[c] == Empty && b' == b[c := Mark(p)];
    forall k | 0 <= k < |lines| && Owns(b', lines[k], p.Other())
      ensures Owns(b, lines[k], p.Other())
    {
    }
    forall k | 0 <= k < |lines| && Owns(b, lines[k], p)
      ensures Owns(b', lines[k], p)
    {
    }
  }

  lemma {:induction false} CountTotal(b: Board)
    ensures Count(b, Empty) + Count(b, Mark(X)) + Count(b, Mark(O)) == |b|
  {
    if b != [] {
      var last := |b| - 1;
      CountTotal(b[..last]);
      assert b == b[..last] + [b[last]];
      assert multiset(b) == multiset(b[..last]) + multiset{b[last]};
      match b[last] {
        case Empty =>
        case Mark(p) => assert p == X || p == O;
      }
    }
  }

  lemma FullIffNoEmpties(b: Board)
    ensures Empties(b) == [] <==> Empty !in b
  {
    if Empties(b) != [] {
      assert b[Empties(b)[0]] == Empty;
    }
    if c: nat :| c < |b| && b[c] == Empty {
      var _ := EmptyAt(b, c);
    }
  }
}
