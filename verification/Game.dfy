/** The depth-adjusted minimax search of the perfect bot, for any number of cells,
    any list of winning lines and any win constant above the number of cells. */
module Game {
  import opened Boards

  /** `win` is the bot's 10 and `sentinel` its 999. */
  datatype Rules = Rules(cells: nat, lines: seq<seq<nat>>, win: int, sentinel: int) {
    ghost predicate Valid() {
      && cells < win < sentinel
      && forall k :: 0 <= k < |lines| ==> lines[k] != [] && forall j :: 0 <= j < |lines[k]| ==> lines[k][j] < cells
    }
  }

  predicate Ended(g: Rules, b: Board) {
    Winner(g.lines, b).Some? || Empties(b) == []
  }

  /** What a finished board is worth to `me`: earlier wins and later losses are better. */
  function Score(g: Rules, b: Board, me: Player): int {
    var marks := |b| - Count(b, Empty);
    match Winner(g.lines, b)
    case Some(p) => if p == me then g.win - marks else marks - g.win
    case None => 0
  }

  function Extreme(largest: bool, vs: seq<int>): (v: int)
    requires vs != []
    ensures v in vs
    ensures forall k :: 0 <= k < |vs| ==> if largest then vs[k] <= v else v <= vs[k]
  {
    if |vs| == 1 then vs[0]
    else
      var rest := Extreme(largest, vs[1..]);
      assert forall k :: 0 < k < |vs| ==> vs[k] == vs[1..][k - 1];
      if largest == (rest < vs[0]) then vs[0] else rest
  }

  /** The value of the game to `me` with `toMove` on the move: `me` picks the largest
      value, the opponent the smallest. */
  ghost function Value(g: Rules, b: Board, toMove: Player, me: Player): int
    decreases Count(b, Empty), 1
  {
    if Ended(g, b) then Score(g, b, me)
    else Extreme(toMove == me, ChildValues(g, b, toMove, me))
  }

  ghost function ChildValues(g: Rules, b: Board, toMove: Player, me: Player): (vs: seq<int>)
    ensures |vs| == |Empties(b)|
    decreases Count(b, Empty), 0
  {
    var es := Empties(b);
    seq(|es|, i requires 0 <= i < |es| => Value(g, b[es[i] := Mark(toMove)], toMove.Other(), me))
  }

  /** The value after `toMove` marks the empty cell `c`. */
  ghost function After(g: Rules, b: Board, c: nat, toMove: Player, me: Player): int
    requires c < |b|
  {
    Value(g, b[c := Mark(toMove)], toMove.Other(), me)
  }

  /** Among equally good moves the bot keeps the first in row-major order. */
  ghost predicate IsFirstBest(g: Rules, b: Board, toMove: Player, me: Player, c: nat) {
    && c < |b| && b[c] == Empty
    && After(g, b, c, toMove, me) == Value(g, b, toMove, me)
    && forall c': nat :: c' < c && b[c'] == Empty ==> After(g, b, c', toMove, me) != Value(g, b, toMove, me)
  }

  lemma ChildOfCell(g: Rules, b: Board, c: nat, toMove: Player, me: Player) returns (k: nat)
    requires c < |b| && b[c] == Empty
    ensures k < |Empties(b)| && Empties(b)[k] == c
    ensures ChildValues(g, b, toMove, me)[k] == After(g, b, c, toMove, me)
  {
    k := EmptyAt(b, c);
  }

  /** The value of an unfinished board is attained by some move and bounds them all. */
  lemma ValueIsExtreme(g: Rules, b: Board, toMove: Player, me: Player)
    requires !Ended(g, b)
    ensures exists c: nat :: c < |b| && b[c] == Empty && After(g, b, c, toMove, me) == Value(g, b, toMove, me)
    ensures forall c: nat :: c < |b| && b[c] == Empty ==>
      if toMove == me then After(g, b, c, toMove, me) <= Value(g, b, toMove, me)
      else Value(g, b, toMove, me) <= After(g, b, c, toMove, me)
  {
    var vs := ChildValues(g, b, toMove, me);
    var i :| 0 <= i < |vs| && vs[i] == Value(g, b, toMove, me);
    assert After(g, b, Empties(b)[i], toMove, me) == Value(g, b, toMove, me);
    forall c: nat | c < |b| && b[c] == Empty
      ensures if toMove == me then After(g, b, c, toMove, me) <= Value(g, b, toMove, me)
              else Value(g, b, toMove, me) <= After(g, b, c, toMove, me)
    {
      var k := ChildOfCell(g, b, c, toMove, me);
    }
  }

  lemma FirstBestExists(g: Rules, b: Board, toMove: Player, me: Player)
    requires !Ended(g, b)
    ensures exists c: nat :: IsFirstBest(g, b, toMove, me, c)
  {
    ValueIsExtreme(g, b, toMove, me);
    var c: nat :| c < |b| && b[c] == Empty && After(g, b, c, toMove, me) == Value(g, b, toMove, me);
    FirstBestAtOrBefore(g, b, toMove, me, c);
  }

  lemma {:induction false} FirstBestAtOrBefore(g: Rules, b: Board, toMove: Player, me: Player, c: nat)
    requires c < |b| && b[c] == Empty && After(g, b, c, toMove, me) == Value(g, b, toMove, me)
    ensures exists first: nat :: IsFirstBest(g, b, toMove, me, first)
  {
    if c': nat :| c' < c && b[c'] == Empty && After(g, b, c', toMove, me) == Value(g, b, toMove, me) {
      FirstBestAtOrBefore(g, b, toMove, me, c');
    } else {
      assert IsFirstBest(g, b, toMove, me, c);
    }
  }

  /** Scores stay within the win constant, so the sentinels are never returned. */
  lemma {:induction false} ValueBounds(g: Rules, b: Board, toMove: Player, me: Player)
    requires g.Valid() && |b| == g.cells
    ensures -g.win <= Value(g, b, toMove, me) <= g.win
    ensures -g.sentinel < Value(g, b, toMove, me) < g.sentinel
    decreases Count(b, Empty)
  {
    CountTotal(b);
    if !Ended(g, b) {
      ValueIsExtreme(g, b, toMove, me);
      var c: nat :| c < |b| && b[c] == Empty && After(g, b, c, toMove, me) == Value(g, b, toMove, me);
      ValueBounds(g, b[c := Mark(toMove)], toMove.Other(), me);
    }
  }

  /** `best` is the value of, and `at` the position of, the first optimum in `vs[..i]`. */
  ghost predicate IsBestOf(vs: seq<int>, i: nat, at: nat, largest: bool, best: int) {
    && at < i <= |vs| && best == vs[at]
    && (forall j :: 0 <= j < i ==> if largest then vs[j] <= best else best <= vs[j])
    && (forall j :: 0 <= j < at ==> vs[j] != best)
  }

  /** The search in place: every trial mark is undone, the score is the game value
      and the move is the first optimal one. */
  method Minimax(g: Rules, board: array<Cell>, toMove: Player, me: Player)
    returns (score: int, move: Option<nat>)
    requires g.Valid() && board.Length == g.cells
    modifies board
    ensures board[..] == old(board[..])
    ensures score == Value(g, old(board[..]), toMove, me)
    ensures move.None? <==> Ended(g, old(board[..]))
    ensures move.Some? ==> IsFirstBest(g, old(board[..]), toMove, me, move.value)
    decreases Count(board[..], Empty)
  {
    ghost var b := board[..];
    var them := me.Other();
    var marks := board.Length - Count(board[..], Empty);
    var w := Winner(g.lines, board[..]);
    if w == Some(me) {
      return g.win - marks, None;
    }
    if w == Some(them) {
      return -g.win + marks, None;
    }
    assert (me == X && them == O) || (me == O && them == X);
    var moves := Empties(board[..]);
    if moves == [] {
      return 0, None;
    }

    assert w.None? || w.value == X || w.value == O;
    assert !Ended(g, b);
    score := if toMove == me then -g.sentinel else g.sentinel;
    var best := moves[0];
    ghost var vs, at := ChildValues(g, b, toMove, me), 0;
    for i := 0 to |moves|
      invariant board[..] == b
      invariant i == 0 ==> score == (if toMove == me then -g.sentinel else g.sentinel)
      invariant i > 0 ==> IsBestOf(vs, i, at, toMove == me, score) && best == moves[at]
    {
      var c := moves[i];
      Trial(g, b, i, toMove, me);
      board[c] := Mark(toMove);
      ghost var trial := board[..];
      assert trial == b[c := Mark(toMove)];
      var s, _ := Minimax(g, board, if toMove == me then them else me, me);
      assert s == vs[i];
      board[c] := Empty;
      assert board[..] == trial[c := Empty];
      BestStep(vs, i, at, toMove == me, score);
      if toMove == me {
        if s > score {
          score, best, at := s, c, i;
        }
      } else {
        if s < score {
          score, best, at := s, c, i;
        }
      }
    }
    move := Some(best);
    assert IsBestOf(vs, |moves|, at, toMove == me, score);
    FirstBestFound(g, b, at, toMove, me, score);
  }

  /** One pass of the loop: a strictly better value replaces the best so far. */
  lemma BestStep(vs: seq<int>, i: nat, at: nat, largest: bool, best: int)
    requires i < |vs|
    requires if i == 0 then (if largest then best < vs[0] else vs[0] < best) else IsBestOf(vs, i, at, largest, best)
    ensures if (if largest then vs[i] > best else vs[i] < best) then IsBestOf(vs, i + 1, i, largest, vs[i])
            else i > 0 && IsBestOf(vs, i + 1, at, largest, best)
  {
  }

  /** What the loop needs of its i-th trial mark. */
  lemma Trial(g: Rules, b: Board, i: nat, toMove: Player, me: Player)
    requires g.Valid() && |b| == g.cells && i < |Empties(b)|
    ensures var c, vs := Empties(b)[i], ChildValues(g, b, toMove, me);
            && Count(b[c := Mark(toMove)], Empty) < Count(b, Empty)
            && -g.sentinel < vs[i] < g.sentinel
            && vs[i] == Value(g, b[c := Mark(toMove)], if toMove == me then me.Other() else me, me)
            && b[c := Mark(toMove)][c := Empty] == b
  {
    var c := Empties(b)[i];
    assert toMove.Other() == if toMove == me then me.Other() else me;
    ValueBounds(g, b[c := Mark(toMove)], toMove.Other(), me);
  }

  lemma BestIsExtreme(vs: seq<int>, at: nat, largest: bool, best: int)
    requires IsBestOf(vs, |vs|, at, largest, best)
    ensures best == Extreme(largest, vs)
  {
  }

  lemma FirstBestFound(g: Rules, b: Board, at: nat, toMove: Player, me: Player, best: int)
    requires !Ended(g, b)
    requires IsBestOf(ChildValues(g, b, toMove, me), |Empties(b)|, at, toMove == me, best)
    ensures best == Value(g, b, toMove, me) && IsFirstBest(g, b, toMove, me, Empties(b)[at])
  {
    EmptiesAscend(b);
    BestIsExtreme(ChildValues(g, b, toMove, me), at, toMove == me, best);
    assert After(g, b, Empties(b)[at], toMove, me) == best;
    forall c: nat | c < Empties(b)[at] && b[c] == Empty
      ensures After(g, b, c, toMove, me) != best
    {
      var k := ChildOfCell(g, b, c, toMove, me);
    }
  }
}
