/** What the search value means for whole games, whatever the opponent does. */
module Strategy {
  import opened Boards
  import opened Game

  /** `me` has a strategy whose every continuation ends with a score of at least `v`. */
  ghost predicate CanForce(g: Rules, b: Board, toMove: Player, me: Player, v: int)
    decreases Count(b, Empty)
  {
    if Ended(g, b) then Score(g, b, me) >= v
    else if toMove == me then
      exists c: nat :: c < |b| && b[c] == Empty && CanForce(g, b[c := Mark(toMove)], toMove.Other(), me, v)
    else
      forall c: nat :: c < |b| && b[c] == Empty ==> CanForce(g, b[c := Mark(toMove)], toMove.Other(), me, v)
  }

  /** The search value is exactly the best outcome `me` can force. */
  lemma {:induction false} ValueIsWhatCanBeForced(g: Rules, b: Board, toMove: Player, me: Player, v: int)
    ensures CanForce(g, b, toMove, me, v) <==> Value(g, b, toMove, me) >= v
    decreases Count(b, Empty)
  {
    if !Ended(g, b) {
      ValueIsExtreme(g, b, toMove, me);
      forall c: nat | c < |b| && b[c] == Empty
        ensures CanForce(g, b[c := Mark(toMove)], toMove.Other(), me, v) <==> After(g, b, c, toMove, me) >= v
      {
        ValueIsWhatCanBeForced(g, b[c := Mark(toMove)], toMove.Other(), me, v);
      }
    }
  }

  /** The game is zero-sum: what one side can force is what the other cannot avoid. */
  lemma {:induction false} ZeroSum(g: Rules, b: Board, toMove: Player, me: Player)
    ensures Value(g, b, toMove, me.Other()) == -Value(g, b, toMove, me)
    decreases Count(b, Empty)
  {
    if !Ended(g, b) {
      ValueIsExtreme(g, b, toMove, me);
      ValueIsExtreme(g, b, toMove, me.Other());
      forall c: nat | c < |b| && b[c] == Empty
        ensures After(g, b, c, toMove, me.Other()) == -After(g, b, c, toMove, me)
      {
        ZeroSum(g, b[c := Mark(toMove)], toMove.Other(), me);
      }
      assert toMove == me || toMove == me.Other();
    }
  }

  // ---------------------------------------------------------------- winning early

  /** The marks on a board. */
  function Marks(b: Board): nat {
    Count(b, Mark(X)) + Count(b, Mark(O))
  }

  /** `me` has a strategy that wins with at most `n` marks on the board, whatever the
      opponent plays. */
  ghost predicate CanWinWithin(g: Rules, b: Board, toMove: Player, me: Player, n: nat)
    decreases Count(b, Empty)
  {
    match Winner(g.lines, b)
    case Some(p) => p == me && Marks(b) <= n
    case None =>
      if Empty !in b then false
      else if toMove == me then
        exists c: nat :: c < |b| && b[c] == Empty && CanWinWithin(g, b[c := Mark(toMove)], toMove.Other(), me, n)
      else
        forall c: nat :: c < |b| && b[c] == Empty ==> CanWinWithin(g, b[c := Mark(toMove)], toMove.Other(), me, n)
  }

  lemma EndedWithin(g: Rules, b: Board, toMove: Player, me: Player, n: nat)
    requires g.Valid() && |b| == g.cells && n < g.win && Ended(g, b)
    ensures Value(g, b, toMove, me) >= g.win - n <==> CanWinWithin(g, b, toMove, me, n)
  {
    CountTotal(b);
    FullIffNoEmpties(b);
  }

  /** The search value is the win constant less the least number of marks with which `me`
      can force a win: the depth adjustment says exactly how early. */
  lemma {:induction false} ValueIsHowEarly(g: Rules, b: Board, toMove: Player, me: Player, n: nat)
    requires g.Valid() && |b| == g.cells && n < g.win
    ensures Value(g, b, toMove, me) >= g.win - n <==> CanWinWithin(g, b, toMove, me, n)
    decreases Count(b, Empty)
  {
    if Ended(g, b) {
      EndedWithin(g, b, toMove, me, n);
    } else {
      FullIffNoEmpties(b);
      ValueIsExtreme(g, b, toMove, me);
      forall c: nat | c < |b| && b[c] == Empty
        ensures CanWinWithin(g, b[c := Mark(toMove)], toMove.Other(), me, n) <==> After(g, b, c, toMove, me) >= g.win - n
      {
        ValueIsHowEarly(g, b[c := Mark(toMove)], toMove.Other(), me, n);
      }
    }
  }

  /** And a loss is put off as long as possible: the same of the opponent's wins. */
  lemma LossIsHowEarly(g: Rules, b: Board, toMove: Player, me: Player, n: nat)
    requires g.Valid() && |b| == g.cells && n < g.win
    ensures Value(g, b, toMove, me) <= n - g.win <==> CanWinWithin(g, b, toMove, me.Other(), n)
  {
    ZeroSum(g, b, toMove, me);
    ValueIsHowEarly(g, b, toMove, me.Other(), n);
  }

  /** A win that is still to come takes at least one more mark. */
  lemma {:induction false} WinTakesMarks(g: Rules, b: Board, toMove: Player, me: Player, n: nat)
    requires CanWinWithin(g, b, toMove, me, n)
    ensures Marks(b) <= n && (Winner(g.lines, b).None? ==> Marks(b) < n)
    decreases Count(b, Empty)
  {
    if Winner(g.lines, b).None? {
      var c: nat :| c < |b| && b[c] == Empty && CanWinWithin(g, b[c := Mark(toMove)], toMove.Other(), me, n);
      OneMoreMark(b, c, toMove);
      WinTakesMarks(g, b[c := Mark(toMove)], toMove.Other(), me, n);
    }
  }

  lemma OneMoreMark(b: Board, c: nat, p: Player)
    requires c < |b| && b[c] == Empty
    ensures Marks(b[c := Mark(p)]) == Marks(b) + 1
  {
    assert LegalStep(b, b[c := Mark(p)], p);
    StepCounts(b, b[c := Mark(p)], p);
    assert p == X || p == O;
  }

  /** If the side to move can complete a line at once, the search's move completes one. */
  lemma WinsAtOnce(g: Rules, b: Board, me: Player, c: nat, best: nat)
    requires g.Valid() && |b| == g.cells && !Ended(g, b)
    requires c < |b| && b[c] == Empty && Winner(g.lines, b[c := Mark(me)]) == Some(me)
    requires IsFirstBest(g, b, me, me, best)
    ensures Winner(g.lines, b[best := Mark(me)]) == Some(me)
  {
    var n := Marks(b) + 1;
    var next := b[best := Mark(me)];
    OneMoreMark(b, c, me);
    OneMoreMark(b, best, me);
    CountTotal(b[c := Mark(me)]);
    CountTotal(b);
    FullIffNoEmpties(b);
    assert CanWinWithin(g, b[c := Mark(me)], me.Other(), me, n);
    ValueIsHowEarly(g, b, me, me, n);
    ValueIsHowEarly(g, next, me.Other(), me, n);
    WinTakesMarks(g, next, me.Other(), me, n);
  }

  // ---------------------------------------------------------------- whole runs

  /** The mover at step `i` of a run in which `first` opens. */
  function MoverAt(first: Player, i: nat): Player {
    if i % 2 == 0 then first else first.Other()
  }

  /** A run of legal moves from unfinished boards. */
  ghost predicate IsRun(g: Rules, run: seq<Board>, first: Player) {
    && run != []
    && forall i :: 0 <= i < |run| - 1 ==> !Ended(g, run[i]) && LegalStep(run[i], run[i + 1], MoverAt(first, i))
  }

  /** On every move of `p` in the run, `p` plays what the search for `p` returns. */
  ghost predicate PlaysSearch(g: Rules, run: seq<Board>, first: Player, p: Player) {
    forall i :: 0 <= i < |run| - 1 && MoverAt(first, i) == p ==>
      exists c: nat :: IsFirstBest(g, run[i], p, p, c) && run[i + 1] == run[i][c := Mark(p)]
  }

  lemma SearchMoveKeepsValue(g: Rules, b: Board, b': Board, me: Player, c: nat)
    requires IsFirstBest(g, b, me, me, c) && b' == b[c := Mark(me)]
    ensures Value(g, b', me.Other(), me) == Value(g, b, me, me)
  {
  }

  lemma OpponentCannotLowerValue(g: Rules, b: Board, b': Board, me: Player)
    requires !Ended(g, b) && LegalStep(b, b', me.Other())
    ensures Value(g, b', me, me) >= Value(g, b, me.Other(), me)
  {
    ValueIsExtreme(g, b, me.Other(), me);
    var c: nat :| c < |b| && b[c] == Empty && b' == b[c := Mark(me.Other())];
    assert After(g, b, c, me.Other(), me) >= Value(g, b, me.Other(), me);
    assert me.Other().Other() == me;
  }

  lemma StepKeepsValue(g: Rules, b: Board, b': Board, mover: Player, me: Player)
    requires !Ended(g, b) && LegalStep(b, b', mover)
    requires mover == me ==> exists c: nat :: IsFirstBest(g, b, me, me, c) && b' == b[c := Mark(me)]
    ensures Value(g, b', mover.Other(), me) >= Value(g, b, mover, me)
  {
    if mover == me {
      var c: nat :| IsFirstBest(g, b, me, me, c) && b' == b[c := Mark(me)];
      SearchMoveKeepsValue(g, b, b', me, c);
    } else {
      assert mover == me.Other();
      OpponentCannotLowerValue(g, b, b', me);
    }
  }

  lemma RunStepKeepsValue(g: Rules, run: seq<Board>, first: Player, me: Player, i: nat)
    requires IsRun(g, run, first) && PlaysSearch(g, run, first, me) && i < |run| - 1
    ensures Value(g, run[i + 1], MoverAt(first, i + 1), me) >= Value(g, run[i], MoverAt(first, i), me)
  {
    assert LegalStep(run[i], run[i + 1], MoverAt(first, i));
    assert MoverAt(first, i + 1) == MoverAt(first, i).Other();
    StepKeepsValue(g, run[i], run[i + 1], MoverAt(first, i), me);
  }

  /** Induction over the steps of a run. */
  lemma {:induction false} Kept(inv: nat -> bool, n: nat)
    requires inv(0) && forall k: nat :: k < n && inv(k) ==> inv(k + 1)
    ensures inv(n)
  {
    if n > 0 {
      Kept(inv, n - 1);
    }
  }

  /** Whatever the opponent plays, the value to a searching player never drops. */
  lemma ValueNeverDrops(g: Rules, run: seq<Board>, first: Player, me: Player, i: nat)
    requires IsRun(g, run, first) && PlaysSearch(g, run, first, me)
    requires i < |run|
    ensures Value(g, run[i], MoverAt(first, i), me) >= Value(g, run[0], first, me)
  {
    ghost var value := (k: nat) => if k < |run| then Value(g, run[k], MoverAt(first, k), me) else 0;
    ghost var inv := (k: nat) => value(k) >= value(0);
    forall k: nat | k < i && inv(k)
      ensures inv(k + 1)
    {
      RunStepKeepsValue(g, run, first, me, k);
    }
    Kept(inv, i);
  }

  /** A finished run pays the searching player at least the opening value: from a
      nonnegative value it never loses, from a positive value v it wins with at most
      `win - v` marks on the board. */
  lemma SearchSecuresValue(g: Rules, run: seq<Board>, first: Player, me: Player)
    requires IsRun(g, run, first) && PlaysSearch(g, run, first, me)
    requires Ended(g, run[|run| - 1])
    requires g.Valid() && |run[0]| == g.cells
    ensures var v, last := Value(g, run[0], first, me), run[|run| - 1];
            && Score(g, last, me) >= v
            && (v >= 0 ==> Winner(g.lines, last) != Some(me.Other()))
            && (v > 0 ==> Winner(g.lines, last) == Some(me) && |last| - Count(last, Empty) <= g.win - v)
  {
    ValueNeverDrops(g, run, first, me, |run| - 1);
    RunKeepsSize(g, run, first, |run| - 1);
    CountTotal(run[|run| - 1]);
    assert me.Other() != me;
    assert Winner(g.lines, run[|run| - 1]).Some? ==>
        Winner(g.lines, run[|run| - 1]).value == me || Winner(g.lines, run[|run| - 1]).value == me.Other();
  }

  lemma {:induction false} RunKeepsSize(g: Rules, run: seq<Board>, first: Player, i: nat)
    requires IsRun(g, run, first) && i < |run|
    ensures |run[i]| == |run[0]|
  {
    if i > 0 {
      RunKeepsSize(g, run, first, i - 1);
      assert LegalStep(run[i - 1], run[i], MoverAt(first, i - 1));
    }
  }

  /** And no more: a searching opponent holds every play of `me` to the opening value. */
  lemma SearchingOpponentHoldsValue(g: Rules, run: seq<Board>, first: Player, me: Player)
    requires IsRun(g, run, first) && PlaysSearch(g, run, first, me.Other())
    requires Ended(g, run[|run| - 1])
    ensures Score(g, run[|run| - 1], me) <= Value(g, run[0], first, me)
  {
    ValueNeverDrops(g, run, first, me.Other(), |run| - 1);
    ZeroSum(g, run[0], first, me);
    ZeroSum(g, run[|run| - 1], MoverAt(first, |run| - 1), me);
  }
}
