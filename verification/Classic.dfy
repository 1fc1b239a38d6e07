/** The 3x3 game: from the empty board neither searching player can be beaten. */
module Classic {
  import opened Boards
  import opened Game
  import opened Strategy

  const CLASSIC := Rules(CELLS, WINNING_LINES, 10, 999)

  /** `me` can keep the opponent from completing a line. */
  ghost predicate Survives(lines: seq<seq<nat>>, b: Board, toMove: Player, me: Player)
    decreases Count(b, Empty)
  {
    && !HasLine(lines, b, me.Other())
    && (|| HasLine(lines, b, me)
        || (if toMove == me then
              Empty !in b || exists c: nat :: c < |b| && b[c] == Empty && Survives(lines, b[c := Mark(me)], me.Other(), me)
            else
              forall c: nat :: c < |b| && b[c] == Empty ==> Survives(lines, b[c := Mark(toMove)], me, me)))
  }

  /** Surviving is exactly having a nonnegative value, as long as not both sides have a line. */
  lemma {:induction false} SurvivingIsNotLosing(g: Rules, b: Board, toMove: Player, me: Player)
    requires g.Valid() && |b| == g.cells
    requires !(HasLine(g.lines, b, X) && HasLine(g.lines, b, O))
    ensures Survives(g.lines, b, toMove, me) <==> Value(g, b, toMove, me) >= 0
    decreases Count(b, Empty)
  {
    CountTotal(b);
    FullIffNoEmpties(b);
    assert (me == X && me.Other() == O) || (me == O && me.Other() == X);
    if !Ended(g, b) {
      ValueIsExtreme(g, b, toMove, me);
      forall c: nat | c < |b| && b[c] == Empty
        ensures Survives(g.lines, b[c := Mark(toMove)], toMove.Other(), me) <==> After(g, b, c, toMove, me) >= 0
      {
        StepLines(g.lines, b, b[c := Mark(toMove)], toMove);
        SurvivingIsNotLosing(g, b[c := Mark(toMove)], toMove.Other(), me);
      }
    }
  }

  // ---------------------------------------------------------------- pairing strategies

  /** `line` can no longer be completed by the opponent of `me`: it holds a mark of
      `me`, or two cells that are partners of each other. */
  ghost predicate Guarded(b: Board, partner: seq<nat>, line: seq<nat>, me: Player) {
    exists i, j :: 0 <= i < |line| && 0 <= j < |line| && line[i] < |b| && line[i] < |partner| &&
      (b[line[i]] == Mark(me) || (partner[line[i]] == line[j] && line[j] != line[i]))
  }

  /** `partner` pairs off cells so that every line is guarded and of every pair
      either both cells are empty or `me` holds one. */
  ghost predicate Paired(lines: seq<seq<nat>>, b: Board, partner: seq<nat>, me: Player) {
    && |partner| == |b|
    && (forall c: nat :: c < |b| ==>
          && partner[c] < |b| && partner[partner[c]] == c
          && (partner[c] != c ==>
                (b[c] == Empty && b[partner[c]] == Empty) || b[c] == Mark(me) || b[partner[c]] == Mark(me)))
    && (forall k :: 0 <= k < |lines| ==> Guarded(b, partner, lines[k], me))
  }

  /** While pairs are answered the opponent cannot own a line, not even one move later. */
  lemma PairedNoLine(lines: seq<seq<nat>>, b: Board, partner: seq<nat>, me: Player, c: nat)
    requires Paired(lines, b, partner, me) && c < |b| && b[c] == Empty
    ensures !HasLine(lines, b[c := Mark(me.Other())], me.Other())
  {
    var b' := b[c := Mark(me.Other())];
    forall k | 0 <= k < |lines|
      ensures !Owns(b', lines[k], me.Other())
    {
      assert Guarded(b, partner, lines[k], me);
    }
  }

  /** Answering each mark with its partner's keeps the position paired. */
  lemma AnswerKeepsPaired(lines: seq<seq<nat>>, b: Board, partner: seq<nat>, me: Player, c: nat, r: nat)
    requires Paired(lines, b, partner, me)
    requires c < |b| && b[c] == Empty && r < |b| && r != c && b[r] == Empty
    requires b[partner[c]] == Empty && partner[c] != c ==> r == partner[c]
    ensures Paired(lines, b[c := Mark(me.Other())][r := Mark(me)], partner, me)
  {
    var b' := b[c := Mark(me.Other())][r := Mark(me)];
    forall k | 0 <= k < |lines|
      ensures Guarded(b', partner, lines[k], me)
    {
      var i, j :| 0 <= i < |lines[k]| && 0 <= j < |lines[k]| && lines[k][i] < |b| &&
        (b[lines[k][i]] == Mark(me) || (partner[lines[k][i]] == lines[k][j] && lines[k][j] != lines[k][i]));
    }
  }

  /** A pairing is a survival strategy. */
  lemma {:induction false} PairingSurvives(lines: seq<seq<nat>>, b: Board, partner: seq<nat>, me: Player)
    requires Paired(lines, b, partner, me)
    ensures Survives(lines, b, me.Other(), me)
    decreases Count(b, Empty)
  {
    forall k | 0 <= k < |lines|
      ensures !Owns(b, lines[k], me.Other())
    {
      assert Guarded(b, partner, lines[k], me);
    }
    forall c: nat | c < |b| && b[c] == Empty
      ensures Survives(lines, b[c := Mark(me.Other())], me, me)
    {
      var b1 := b[c := Mark(me.Other())];
      PairedNoLine(lines, b, partner, me, c);
      if Empty in b1 {
        var some: nat :| some < |b1| && b1[some] == Empty;
        var r := if partner[c] != c && b[partner[c]] == Empty then partner[c] else some;
        AnswerKeepsPaired(lines, b, partner, me, c, r);
        PairingSurvives(lines, b1[r := Mark(me)], partner, me);
      }
    }
  }

  // ---------------------------------------------------------------- the 3x3 lines

  predicate Three(b: Board, i: nat, j: nat, k: nat, p: Player)
    requires |b| == CELLS && i < CELLS && j < CELLS && k < CELLS
  {
    b[i] == Mark(p) && b[j] == Mark(p) && b[k] == Mark(p)
  }

  predicate HasThree(b: Board, p: Player)
    requires |b| == CELLS
  {
    || Three(b, 0, 1, 2, p) || Three(b, 3, 4, 5, p) || Three(b, 6, 7, 8, p)
    || Three(b, 0, 3, 6, p) || Three(b, 1, 4, 7, p) || Three(b, 2, 5, 8, p)
    || Three(b, 0, 4, 8, p) || Three(b, 2, 4, 6, p)
  }

  lemma OwnsThree(b: Board, line: seq<nat>, p: Player)
    requires |b| == CELLS && |line| == 3 && line[0] < CELLS && line[1] < CELLS && line[2] < CELLS
    ensures Owns(b, line, p) <==> Three(b, line[0], line[1], line[2], p)
  {
  }

  lemma ClassicLines(b: Board, p: Player)
    requires |b| == CELLS
    ensures HasLine(WINNING_LINES, b, p) <==> HasThree(b, p)
  {
    var ls := WINNING_LINES;
    OwnsThree(b, ls[0], p); OwnsThree(b, ls[1], p); OwnsThree(b, ls[2], p);
    OwnsThree(b, ls[3], p); OwnsThree(b, ls[4], p); OwnsThree(b, ls[5], p);
    OwnsThree(b, ls[6], p); OwnsThree(b, ls[7], p);
    assert HasLine(ls, b, p) <==>
      Owns(b, ls[0], p) || Owns(b, ls[1], p) || Owns(b, ls[2], p) || Owns(b, ls[3], p) ||
      Owns(b, ls[4], p) || Owns(b, ls[5], p) || Owns(b, ls[6], p) || Owns(b, ls[7], p);
  }

  /** Up to two pairs of empty cells; a pair of equal cells stands for none. */
  datatype Pairs = Pairs(a: nat, a': nat, d: nat, d': nat) {
    predicate Within(b: Board) {
      && |b| == CELLS && a < CELLS && a' < CELLS && d < CELLS && d' < CELLS
      && a != d && a != d' && a' != d && a' != d'
      && (a != a' ==> b[a] == Empty && b[a'] == Empty)
      && (d != d' ==> b[d] == Empty && b[d'] == Empty)
    }

    function Partners(): seq<nat>
      requires a < CELLS && a' < CELLS && d < CELLS && d' < CELLS
    {
      [0, 1, 2, 3, 4, 5, 6, 7, 8][a := a'][a' := a][d := d'][d' := d]
    }

    /** The line i, j, k holds an O or one of the pairs. */
    predicate Guard(b: Board, i: nat, j: nat, k: nat)
      requires |b| == CELLS && i < CELLS && j < CELLS && k < CELLS
    {
      || b[i] == Mark(O) || b[j] == Mark(O) || b[k] == Mark(O)
      || (a != a' && a in [i, j, k] && a' in [i, j, k])
      || (d != d' && d in [i, j, k] && d' in [i, j, k])
    }

    predicate GuardAll(b: Board)
      requires |b| == CELLS
    {
      && Guard(b, 0, 1, 2) && Guard(b, 3, 4, 5) && Guard(b, 6, 7, 8)
      && Guard(b, 0, 3, 6) && Guard(b, 1, 4, 7) && Guard(b, 2, 5, 8)
      && Guard(b, 0, 4, 8) && Guard(b, 2, 4, 6)
    }
  }

  lemma GuardedBy(b: Board, partner: seq<nat>, line: seq<nat>, me: Player, i: nat, j: nat)
    requires i < |line| && j < |line| && line[i] < |b| && line[i] < |partner|
    requires b[line[i]] == Mark(me) || (partner[line[i]] == line[j] && line[j] != line[i])
    ensures Guarded(b, partner, line, me)
  {
  }

  /** Where a cell stands on a line of three. */
  function Place(line: seq<nat>, c: nat): (i: nat)
    requires |line| == 3 && c in [line[0], line[1], line[2]]
    ensures i < 3 && line[i] == c
  {
    if line[0] == c then 0 else if line[1] == c then 1 else 2
  }

  lemma GuardedLine(b: Board, ps: Pairs, line: seq<nat>)
    requires ps.Within(b)
    requires |line| == 3 && line[0] < CELLS && line[1] < CELLS && line[2] < CELLS
    requires ps.Guard(b, line[0], line[1], line[2])
    ensures Guarded(b, ps.Partners(), line, O)
  {
    var partner, cells := ps.Partners(), [line[0], line[1], line[2]];
    if b[line[0]] == Mark(O) {
      GuardedBy(b, partner, line, O, 0, 0);
    } else if b[line[1]] == Mark(O) {
      GuardedBy(b, partner, line, O, 1, 1);
    } else if b[line[2]] == Mark(O) {
      GuardedBy(b, partner, line, O, 2, 2);
    } else if ps.a != ps.a' && ps.a in cells && ps.a' in cells {
      assert partner[ps.a] == ps.a';
      GuardedBy(b, partner, line, O, Place(line, ps.a), Place(line, ps.a'));
    } else {
      assert partner[ps.d] == ps.d';
      GuardedBy(b, partner, line, O, Place(line, ps.d), Place(line, ps.d'));
    }
  }

  lemma PartnerOf(ps: Pairs, c: nat)
    requires ps.a < CELLS && ps.a' < CELLS && ps.d < CELLS && ps.d' < CELLS && c < CELLS
    ensures |ps.Partners()| == CELLS
    ensures ps.Partners()[c] == if c == ps.d' then ps.d else if c == ps.d then ps.d' else
                                if c == ps.a' then ps.a else if c == ps.a then ps.a' else c
  {
    assert [0, 1, 2, 3, 4, 5, 6, 7, 8][c] == c;
  }

  lemma PairsAreAnswered(b: Board, ps: Pairs, c: nat)
    requires ps.Within(b) && c < CELLS
    ensures var partner := ps.Partners();
            && |partner| == CELLS && partner[c] < CELLS && partner[partner[c]] == c
            && (partner[c] != c ==> b[c] == Empty && b[partner[c]] == Empty)
  {
    PartnerOf(ps, c);
    PartnerOf(ps, ps.Partners()[c]);
  }

  lemma LinesAreGuarded(b: Board, ps: Pairs, k: nat)
    requires ps.Within(b) && ps.GuardAll(b) && k < 8
    ensures Guarded(b, ps.Partners(), WINNING_LINES[k], O)
  {
    var ls := WINNING_LINES;
    if k == 0 { GuardedLine(b, ps, ls[0]); }
    else if k == 1 { GuardedLine(b, ps, ls[1]); }
    else if k == 2 { GuardedLine(b, ps, ls[2]); }
    else if k == 3 { GuardedLine(b, ps, ls[3]); }
    else if k == 4 { GuardedLine(b, ps, ls[4]); }
    else if k == 5 { GuardedLine(b, ps, ls[5]); }
    else if k == 6 { GuardedLine(b, ps, ls[6]); }
    else { GuardedLine(b, ps, ls[7]); }
  }

  lemma PairsSurvive(b: Board, ps: Pairs)
    requires ps.Within(b) && ps.GuardAll(b)
    ensures Survives(WINNING_LINES, b, X, O)
  {
    var partner := ps.Partners();
    PartnerOf(ps, 0);
    forall c: nat | c < CELLS
      ensures partner[c] < CELLS && partner[partner[c]] == c
      ensures partner[c] != c ==> b[c] == Empty && b[partner[c]] == Empty
    {
      PairsAreAnswered(b, ps, c);
    }
    forall k | 0 <= k < |WINNING_LINES|
      ensures Guarded(b, partner, WINNING_LINES[k], O)
    {
      LinesAreGuarded(b, ps, k);
    }
    PairingSurvives(WINNING_LINES, b, partner, O);
  }

  /** O replies to X's mark on `c` with `r` and survives from there. */
  lemma Reply(b: Board, c: nat, r: nat)
    requires |b| == CELLS && c < CELLS && r < CELLS && c != r && b[c] == Empty && b[r] == Empty
    requires Survives(WINNING_LINES, b[c := Mark(X)][r := Mark(O)], X, O)
    ensures Survives(WINNING_LINES, b[c := Mark(X)], O, O)
  {
    var b1 := b[c := Mark(X)];
    assert b1[r] == Empty;
    assert LegalStep(b1, b1[r := Mark(O)], O);
    StepLines(WINNING_LINES, b1, b1[r := Mark(O)], O);
  }

  lemma Answer(b: Board, c: nat, r: nat, ps: Pairs)
    requires |b| == CELLS && c < CELLS && r < CELLS && c != r && b[c] == Empty && b[r] == Empty
    requires ps.Within(b[c := Mark(X)][r := Mark(O)]) && ps.GuardAll(b[c := Mark(X)][r := Mark(O)])
    ensures Survives(WINNING_LINES, b[c := Mark(X)], O, O)
  {
    PairsSurvive(b[c := Mark(X)][r := Mark(O)], ps);
    Reply(b, c, r);
  }

  /** X cannot complete the line i, j, k with its next mark. */
  predicate Quiet(b: Board, i: nat, j: nat, k: nat)
    requires |b| == CELLS && i < CELLS && j < CELLS && k < CELLS
  {
    || b[i] == Mark(O) || b[j] == Mark(O) || b[k] == Mark(O)
    || (b[i] == Empty && b[j] == Empty) || (b[j] == Empty && b[k] == Empty) || (b[i] == Empty && b[k] == Empty)
  }

  predicate AllQuiet(b: Board)
    requires |b| == CELLS
  {
    && Quiet(b, 0, 1, 2) && Quiet(b, 3, 4, 5) && Quiet(b, 6, 7, 8)
    && Quiet(b, 0, 3, 6) && Quiet(b, 1, 4, 7) && Quiet(b, 2, 5, 8)
    && Quiet(b, 0, 4, 8) && Quiet(b, 2, 4, 6)
  }

  /** Once O completes a line that X left open, X has not lost but O has survived. */
  lemma ThreatCarriedOut(b: Board, c: nat, w: nat)
    requires |b| == CELLS && c < CELLS && w < CELLS && c != w && b[c] == Empty && b[w] == Empty
    requires HasLine(WINNING_LINES, b[w := Mark(O)], O)
    requires !HasLine(WINNING_LINES, b[c := Mark(X)], X)
    ensures Survives(WINNING_LINES, b[c := Mark(X)], O, O)
  {
    var won, b1 := b[w := Mark(O)], b[c := Mark(X)];
    var b2 := b1[w := Mark(O)];
    assert b1[w] == Empty && LegalStep(b1, b2, O);
    StepLines(WINNING_LINES, b1, b2, O);
    assert won[c] == Empty && b2 == won[c := Mark(X)] && LegalStep(won, b2, X);
    StepLines(WINNING_LINES, won, b2, X);
    Reply(b, c, w);
  }

  lemma ThreatStep(b: Board, w: nat, r: nat, c: nat)
    requires |b| == CELLS && w < CELLS && r < CELLS && w != r && b[w] == Empty && b[r] == Empty
    requires AllQuiet(b) && HasThree(b[w := Mark(O)], O)
    requires Survives(WINNING_LINES, b[w := Mark(X)][r := Mark(O)], X, O)
    requires c < CELLS && b[c] == Empty
    ensures Survives(WINNING_LINES, b[c := Mark(X)], O, O)
  {
    if c == w {
      Reply(b, w, r);
    } else {
      ClassicLines(b[w := Mark(O)], O);
      ClassicLines(b[c := Mark(X)], X);
      ThreatCarriedOut(b, c, w);
    }
  }

  /** O threatens to complete a line at `w`, so X must play there; O then plays `r`. */
  lemma Threat(b: Board, w: nat, r: nat)
    requires |b| == CELLS && w < CELLS && r < CELLS && w != r && b[w] == Empty && b[r] == Empty
    requires AllQuiet(b) && HasThree(b[w := Mark(O)], O)
    requires Survives(WINNING_LINES, b[w := Mark(X)][r := Mark(O)], X, O)
    ensures Survives(WINNING_LINES, b, X, O)
  {
    ClassicLines(b, X);
    forall c: nat | c < CELLS && b[c] == Empty
      ensures Survives(WINNING_LINES, b[c := Mark(X)], O, O)
    {
      ThreatStep(b, w, r, c);
    }
  }

  /** O replies to `c` with `r`, threatening `w`; X must answer there; O plays `r'`. */
  lemma AnswerWithThreat(b: Board, c: nat, r: nat, w: nat, r': nat, ps: Pairs)
    requires |b| == CELLS && c < CELLS && r < CELLS && c != r && b[c] == Empty && b[r] == Empty
    requires var b1 := b[c := Mark(X)][r := Mark(O)];
      && w < CELLS && r' < CELLS && w != r' && b1[w] == Empty && b1[r'] == Empty
      && AllQuiet(b1) && HasThree(b1[w := Mark(O)], O)
      && var b2 := b1[w := Mark(X)][r' := Mark(O)]; ps.Within(b2) && ps.GuardAll(b2)
    ensures Survives(WINNING_LINES, b[c := Mark(X)], O, O)
  {
    var b1 := b[c := Mark(X)][r := Mark(O)];
    PairsSurvive(b1[w := Mark(X)][r' := Mark(O)], ps);
    Threat(b1, w, r');
    Reply(b, c, r);
  }

  /** As `AnswerWithThreat`, with a second threat at `w'` answered by `r''`. */
  lemma AnswerWithTwoThreats(b: Board, c: nat, r: nat, w: nat, r': nat, w': nat, r'': nat)
    requires |b| == CELLS && c < CELLS && r < CELLS && c != r && b[c] == Empty && b[r] == Empty
    requires var b1 := b[c := Mark(X)][r := Mark(O)];
      && w < CELLS && r' < CELLS && w != r' && b1[w] == Empty && b1[r'] == Empty
      && AllQuiet(b1) && HasThree(b1[w := Mark(O)], O)
      && var b2 := b1[w := Mark(X)][r' := Mark(O)];
      && w' < CELLS && r'' < CELLS && w' != r'' && b2[w'] == Empty && b2[r''] == Empty
      && AllQuiet(b2) && HasThree(b2[w' := Mark(O)], O)
      && NO_PAIRS.GuardAll(b2[w' := Mark(X)][r'' := Mark(O)])
    ensures Survives(WINNING_LINES, b[c := Mark(X)], O, O)
  {
    var b1 := b[c := Mark(X)][r := Mark(O)];
    var b2 := b1[w := Mark(X)][r' := Mark(O)];
    PairsSurvive(b2[w' := Mark(X)][r'' := Mark(O)], NO_PAIRS);
    Threat(b2, w', r'');
    Threat(b1, w, r');
    Reply(b, c, r);
  }

  const NO_PAIRS := Pairs(0, 0, 1, 1)

  const EDGE_ANSWERED := EMPTY_BOARD[1 := Mark(X)][4 := Mark(O)]
  const CORNER_ANSWERED := EMPTY_BOARD[0 := Mark(X)][4 := Mark(O)]

  lemma EdgeThenHeld(b: Board, c: nat)
    requires b == EDGE_ANSWERED && c < CELLS && b[c] == Empty
    ensures Survives(WINNING_LINES, b[c := Mark(X)], O, O)
  {
    if c == 0 { Answer(b, 0, 2, Pairs(7, 8, 3, 6)); }
    else if c == 2 { Answer(b, 2, 0, Pairs(6, 7, 5, 8)); }
    else if c == 3 { Answer(b, 3, 0, Pairs(6, 7, 2, 5)); }
    else if c == 5 { Answer(b, 5, 0, Pairs(6, 7, 2, 8)); }
    else if c == 6 { Answer(b, 6, 0, Pairs(7, 8, 2, 5)); }
    else if c == 7 { Answer(b, 7, 0, Pairs(6, 8, 2, 5)); }
    else { Answer(b, 8, 0, Pairs(6, 7, 2, 5)); }
  }

  lemma EdgeHeld()
    ensures Survives(WINNING_LINES, EMPTY_BOARD[1 := Mark(X)], O, O)
  {
    var b := EDGE_ANSWERED;
    ClassicLines(b, X);
    forall c: nat | c < |b| && b[c] == Empty
      ensures Survives(WINNING_LINES, b[c := Mark(X)], O, O)
    {
      EdgeThenHeld(b, c);
    }
    Reply(EMPTY_BOARD, 1, 4);
  }

  lemma CornerThenHeld(b: Board, c: nat)
    requires b == CORNER_ANSWERED && c < CELLS && b[c] == Empty
    ensures Survives(WINNING_LINES, b[c := Mark(X)], O, O)
  {
    if c == 1 { Answer(b, 1, 2, Pairs(7, 8, 3, 6)); }
    else if c == 2 { AnswerWithThreat(b, 2, 1, 7, 6, Pairs(5, 8, 3, 3)); }
    else if c == 3 { Answer(b, 3, 6, Pairs(1, 2, 5, 8)); }
    else if c == 5 { Answer(b, 5, 2, Pairs(7, 8, 3, 6)); }
    else if c == 6 { AnswerWithThreat(b, 6, 3, 5, 2, Pairs(7, 8, 1, 1)); }
    else if c == 7 { Answer(b, 7, 6, Pairs(1, 2, 5, 8)); }
    else { AnswerWithThreat(b, 8, 1, 7, 6, Pairs(2, 5, 3, 3)); }
  }

  lemma CornerHeld()
    ensures Survives(WINNING_LINES, EMPTY_BOARD[0 := Mark(X)], O, O)
  {
    var b := CORNER_ANSWERED;
    ClassicLines(b, X);
    forall c: nat | c < |b| && b[c] == Empty
      ensures Survives(WINNING_LINES, b[c := Mark(X)], O, O)
    {
      CornerThenHeld(b, c);
    }
    Reply(EMPTY_BOARD, 0, 4);
  }

  // ---------------------------------------------------------------- symmetries

  /** A quarter turn, and the mirror along the diagonal through cell 0: each cell of
      the moved board comes from the named cell. */
  const TURN: seq<nat> := [6, 3, 0, 7, 4, 1, 8, 5, 2]
  const FLIP: seq<nat> := [0, 3, 6, 1, 4, 7, 2, 5, 8]

  function Moved(b: Board, sym: seq<nat>): (m: Board)
    requires |b| == |sym| == CELLS && (forall i :: 0 <= i < CELLS ==> sym[i] < CELLS)
    ensures |m| == CELLS && forall i :: 0 <= i < CELLS ==> m[i] == b[sym[i]]
  {
    seq(CELLS, i requires 0 <= i < CELLS => b[sym[i]])
  }

  ghost predicate IsSymmetry(sym: seq<nat>) {
    && |sym| == CELLS && (forall i :: 0 <= i < CELLS ==> sym[i] < CELLS)
    && (forall i, j :: 0 <= i < j < CELLS ==> sym[i] != sym[j])
    && (forall c: nat :: c < CELLS ==> c in sym)
    && (forall b: Board, p: Player :: |b| == CELLS ==> (HasThree(Moved(b, sym), p) <==> HasThree(b, p)))
  }

  lemma TurnAndFlipAreSymmetries()
    ensures IsSymmetry(TURN) && IsSymmetry(FLIP)
  {
    assert TURN[2] == 0 && TURN[5] == 1 && TURN[8] == 2 && TURN[1] == 3 && TURN[4] == 4 &&
           TURN[7] == 5 && TURN[0] == 6 && TURN[3] == 7 && TURN[6] == 8;
    assert FLIP[0] == 0 && FLIP[3] == 1 && FLIP[6] == 2 && FLIP[1] == 3 && FLIP[4] == 4 &&
           FLIP[7] == 5 && FLIP[2] == 6 && FLIP[5] == 7 && FLIP[8] == 8;
  }

  lemma MovedMark(b: Board, sym: seq<nat>, t: nat, cell: Cell)
    requires |b| == CELLS && IsSymmetry(sym) && t < CELLS
    ensures Moved(b, sym)[t := cell] == Moved(b[sym[t] := cell], sym)
  {
  }

  /** A symmetry turns lines into lines, so survival is kept. */
  lemma {:induction false} MovedSurvives(b: Board, sym: seq<nat>, toMove: Player, me: Player)
    requires |b| == CELLS && IsSymmetry(sym) && Survives(WINNING_LINES, b, toMove, me)
    ensures Survives(WINNING_LINES, Moved(b, sym), toMove, me)
    decreases Count(b, Empty)
  {
    var m := Moved(b, sym);
    ClassicLines(b, X); ClassicLines(b, O);
    ClassicLines(m, X); ClassicLines(m, O);
    if !HasLine(WINNING_LINES, b, me) {
      if toMove == me {
        if Empty in m {
          var i :| 0 <= i < |m| && m[i] == Empty;
          assert b[sym[i]] == Empty;
          var c: nat :| c < |b| && b[c] == Empty && Survives(WINNING_LINES, b[c := Mark(me)], me.Other(), me);
          assert c in sym;
          var t :| 0 <= t < |sym| && sym[t] == c;
          MovedMark(b, sym, t, Mark(me));
          MovedSurvives(b[c := Mark(me)], sym, me.Other(), me);
        }
      } else {
        forall t: nat | t < CELLS && m[t] == Empty
          ensures Survives(WINNING_LINES, m[t := Mark(toMove)], me, me)
        {
          MovedMark(b, sym, t, Mark(toMove));
          MovedSurvives(b[sym[t] := Mark(toMove)], sym, me, me);
        }
      }
    }
  }

  // ---------------------------------------------------------------- X opens in the centre

  const CENTRE_TAKEN := EMPTY_BOARD[4 := Mark(X)][0 := Mark(O)]

  lemma CentreThenEdgeHeld()
    ensures Survives(WINNING_LINES, CENTRE_TAKEN[1 := Mark(X)], O, O)
  {
    var b := CENTRE_TAKEN[1 := Mark(X)][7 := Mark(O)];
    ClassicLines(b, X);
    forall c: nat | c < |b| && b[c] == Empty
      ensures Survives(WINNING_LINES, b[c := Mark(X)], O, O)
    {
      if c == 2 { AnswerWithThreat(b, 2, 6, 3, 5, NO_PAIRS); }
      else if c == 3 { Answer(b, 3, 5, Pairs(2, 6, 8, 8)); }
      else if c == 5 { AnswerWithThreat(b, 5, 3, 6, 2, NO_PAIRS); }
      else if c == 6 { Answer(b, 6, 2, Pairs(3, 5, 8, 8)); }
      else { Answer(b, 8, 2, Pairs(3, 5, 6, 6)); }
    }
    Reply(CENTRE_TAKEN, 1, 7);
  }

  /** O's survival after X's second mark, for half of the cells: the rest are mirrored. */
  lemma CentreThenHalfHeld(c: nat)
    requires c == 1 || c == 2 || c == 5 || c == 8
    ensures Survives(WINNING_LINES, CENTRE_TAKEN[c := Mark(X)], O, O)
  {
    if c == 1 { CentreThenEdgeHeld(); }
    else if c == 2 { AnswerWithThreat(CENTRE_TAKEN, 2, 6, 3, 5, Pairs(1, 7, 8, 8)); }
    else if c == 5 { AnswerWithTwoThreats(CENTRE_TAKEN, 5, 3, 6, 2, 1, 7); }
    else { AnswerWithThreat(CENTRE_TAKEN, 8, 2, 1, 7, Pairs(3, 5, 6, 6)); }
  }

  lemma CentreThenMirroredHeld(c: nat)
    requires c == 3 || c == 6 || c == 7
    ensures Survives(WINNING_LINES, CENTRE_TAKEN[c := Mark(X)], O, O)
  {
    TurnAndFlipAreSymmetries();
    assert Moved(CENTRE_TAKEN, FLIP) == CENTRE_TAKEN;
    CentreThenHalfHeld(FLIP[c]);
    MovedMark(CENTRE_TAKEN, FLIP, c, Mark(X));
    MovedSurvives(CENTRE_TAKEN[FLIP[c] := Mark(X)], FLIP, O, O);
  }

  lemma CentreHeld()
    ensures Survives(WINNING_LINES, EMPTY_BOARD[4 := Mark(X)], O, O)
  {
    var b := CENTRE_TAKEN;
    ClassicLines(b, X);
    forall c: nat | c < |b| && b[c] == Empty
      ensures Survives(WINNING_LINES, b[c := Mark(X)], O, O)
    {
      if c == 1 || c == 2 || c == 5 || c == 8 {
        CentreThenHalfHeld(c);
      } else {
        CentreThenMirroredHeld(c);
      }
    }
    Reply(EMPTY_BOARD, 4, 0);
  }

  // ---------------------------------------------------------------- the empty board

  /** How many quarter turns take an opening back to cell 0, 1 or 4. */
  function TurnsBack(c: nat): nat {
    match c
    case 2 => 1 case 8 => 2 case 6 => 3
    case 5 => 1 case 7 => 2 case 3 => 3
    case _ => 0
  }

  lemma {:induction false} EveryOpeningHeld(c: nat)
    requires c < CELLS
    ensures Survives(WINNING_LINES, EMPTY_BOARD[c := Mark(X)], O, O)
    decreases TurnsBack(c)
  {
    if c == 4 {
      CentreHeld();
    } else if c == 0 {
      CornerHeld();
    } else if c == 1 {
      EdgeHeld();
    } else {
      TurnAndFlipAreSymmetries();
      EveryOpeningHeld(TURN[c]);
      assert Moved(EMPTY_BOARD, TURN) == EMPTY_BOARD;
      MovedMark(EMPTY_BOARD, TURN, c, Mark(X));
      MovedSurvives(EMPTY_BOARD[TURN[c] := Mark(X)], TURN, O, O);
    }
  }

  /** With X in the centre, X pairs off the rim: 0-3, 1-2, 5-8, 6-7. */
  const RIM: seq<nat> := [3, 2, 1, 0, 4, 8, 7, 6, 5]

  lemma RimGuarded(b: Board, k: nat)
    requires |b| == CELLS && b[4] == Mark(X) && k < 8
    ensures Guarded(b, RIM, WINNING_LINES[k], X)
  {
    var ls := WINNING_LINES;
    if k == 0 { GuardedBy(b, RIM, ls[0], X, 1, 2); }
    else if k == 1 { GuardedBy(b, RIM, ls[1], X, 1, 1); }
    else if k == 2 { GuardedBy(b, RIM, ls[2], X, 0, 1); }
    else if k == 3 { GuardedBy(b, RIM, ls[3], X, 0, 1); }
    else if k == 4 { GuardedBy(b, RIM, ls[4], X, 1, 1); }
    else if k == 5 { GuardedBy(b, RIM, ls[5], X, 1, 2); }
    else if k == 6 { GuardedBy(b, RIM, ls[6], X, 1, 1); }
    else { GuardedBy(b, RIM, ls[7], X, 1, 1); }
  }

  lemma RimPairs(b: Board, c: nat)
    requires b == EMPTY_BOARD[4 := Mark(X)] && c < CELLS
    ensures RIM[c] < CELLS && RIM[RIM[c]] == c && (RIM[c] != c ==> b[c] == Empty && b[RIM[c]] == Empty)
  {
  }

  lemma RimPaired(b: Board)
    requires b == EMPTY_BOARD[4 := Mark(X)]
    ensures Paired(WINNING_LINES, b, RIM, X)
  {
    forall c: nat | c < CELLS
      ensures RIM[c] < CELLS && RIM[RIM[c]] == c && (RIM[c] != c ==> b[c] == Empty && b[RIM[c]] == Empty)
    {
      RimPairs(b, c);
    }
    forall k | 0 <= k < |WINNING_LINES|
      ensures Guarded(b, RIM, WINNING_LINES[k], X)
    {
      RimGuarded(b, k);
    }
  }

  lemma OpenerSurvives()
    ensures Survives(WINNING_LINES, EMPTY_BOARD, X, X)
  {
    var b := EMPTY_BOARD[4 := Mark(X)];
    RimPaired(b);
    PairingSurvives(WINNING_LINES, b, RIM, X);
    ClassicLines(EMPTY_BOARD, O);
    assert EMPTY_BOARD[4] == Empty;
  }

  lemma ReplierSurvives()
    ensures Survives(WINNING_LINES, EMPTY_BOARD, X, O)
  {
    ClassicLines(EMPTY_BOARD, X);
    forall c: nat | c < |EMPTY_BOARD| && EMPTY_BOARD[c] == Empty
      ensures Survives(WINNING_LINES, EMPTY_BOARD[c := Mark(X)], O, O)
    {
      EveryOpeningHeld(c);
    }
  }

  lemma ClassicIsValid()
    ensures CLASSIC.Valid()
  {
  }

  /** Tic-tac-toe is a draw: neither side can force a win from the empty board. */
  lemma EmptyBoardIsADraw(me: Player)
    ensures Value(CLASSIC, EMPTY_BOARD, X, me) == 0
  {
    ClassicIsValid();
    ClassicLines(EMPTY_BOARD, X);
    OpenerSurvives();
    SurvivingIsNotLosing(CLASSIC, EMPTY_BOARD, X, X);
    ReplierSurvives();
    SurvivingIsNotLosing(CLASSIC, EMPTY_BOARD, X, O);
    ZeroSum(CLASSIC, EMPTY_BOARD, X, X);
  }
}
