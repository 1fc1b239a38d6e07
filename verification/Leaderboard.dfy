/** The leaderboard's counting queries over tables of any size. */
module Leaderboard {
  import opened Boards
  import opened Engine
  import opened Store
  import Loop = MatchLoop

  // ---------------------------------------------------------------- sums over rows

  function Sum<T>(rows: seq<T>, f: T -> int): int {
    if rows == [] then 0 else f(rows[0]) + Sum(rows[1..], f)
  }

  lemma {:induction false} SumsAgree<T>(rows: seq<T>, f: T -> int, g: T -> int)
    requires forall i :: 0 <= i < |rows| ==> f(rows[i]) == g(rows[i])
    ensures Sum(rows, f) == Sum(rows, g)
  {
    if rows != [] {
      assert forall i :: 0 <= i < |rows[1..]| ==> rows[1..][i] == rows[i + 1];
      SumsAgree(rows[1..], f, g);
    }
  }

  lemma {:induction false} SumOfSums<T>(rows: seq<T>, f: T -> int, g: T -> int, h: T -> int)
    requires forall i :: 0 <= i < |rows| ==> h(rows[i]) == f(rows[i]) + g(rows[i])
    ensures Sum(rows, h) == Sum(rows, f) + Sum(rows, g)
  {
    if rows != [] {
      assert forall i :: 0 <= i < |rows[1..]| ==> rows[1..][i] == rows[i + 1];
      SumOfSums(rows[1..], f, g, h);
    }
  }

  lemma {:induction false} SumZero<T>(rows: seq<T>, f: T -> int)
    requires forall i :: 0 <= i < |rows| ==> f(rows[i]) == 0
    ensures Sum(rows, f) == 0
  {
    if rows != [] {
      assert forall i :: 0 <= i < |rows[1..]| ==> rows[1..][i] == rows[i + 1];
      SumZero(rows[1..], f);
    }
  }

  lemma SumOfSingle<T>(row: T, f: T -> int)
    ensures Sum([row], f) == f(row)
  {
    assert [row][1..] == [];
  }

  /** Only one row contributes. */
  lemma {:induction false} SumOfOne<T>(rows: seq<T>, f: T -> int, k: nat)
    requires k < |rows| && forall i :: 0 <= i < |rows| && i != k ==> f(rows[i]) == 0
    ensures Sum(rows, f) == f(rows[k])
  {
    assert forall i :: 0 <= i < |rows[1..]| ==> rows[1..][i] == rows[i + 1];
    if k == 0 {
      SumZero(rows[1..], f);
    } else {
      SumOfOne(rows[1..], f, k - 1);
    }
  }

  function RowOf<T>(f: (MatchRow, T) -> int, m: MatchRow): T -> int { (c: T) => f(m, c) }

  function ColumnOf<T>(f: (MatchRow, T) -> int, c: T): MatchRow -> int { (m: MatchRow) => f(m, c) }

  /** Summing by rows or by columns gives the same. */
  lemma {:induction false} SumSwap<T>(ms: seq<MatchRow>, cols: seq<T>, f: (MatchRow, T) -> int,
                                     byRow: MatchRow -> int, byCol: T -> int)
    requires forall k :: 0 <= k < |ms| ==> byRow(ms[k]) == Sum(cols, RowOf(f, ms[k]))
    requires forall j :: 0 <= j < |cols| ==> byCol(cols[j]) == Sum(ms, ColumnOf(f, cols[j]))
    ensures Sum(ms, byRow) == Sum(cols, byCol)
  {
    if ms == [] {
      SumZero(cols, byCol);
    } else {
      var rest := ms[1..];
      assert forall k :: 0 <= k < |rest| ==> rest[k] == ms[k + 1];
      var byCol' := (c: T) => Sum(rest, ColumnOf(f, c));
      SumSwap(rest, cols, f, byRow, byCol');
      SumOfSums(cols, RowOf(f, ms[0]), byCol', byCol);
    }
  }

  // ---------------------------------------------------------------- SQL conditions

  /** SQL's three truth values: a row is kept only when its condition is True. */
  datatype Truth = True | False | Unknown

  function Holds(b: bool): Truth {
    if b then True else False
  }

  function Equals(a: Option<nat>, b: Option<nat>): Truth {
    if a.None? || b.None? then Unknown else Holds(a == b)
  }

  function And(s: Truth, t: Truth): Truth {
    if s == False || t == False then False else if s == True && t == True then True else Unknown
  }

  function Or(s: Truth, t: Truth): Truth {
    if s == True || t == True then True else if s == False && t == False then False else Unknown
  }

  function Not(t: Truth): Truth {
    match t case True => False case False => True case Unknown => Unknown
  }

  /** What a row adds to `count(*)`. */
  function Kept(t: Truth): int {
    if t == True then 1 else 0
  }

  // ---------------------------------------------------------------- the counting queries

  function CleanWinRow(m: MatchRow, id: nat): int {
    Kept(And(Equals(m.winner, Some(id)), Holds(m.result == XWins || m.result == OWins)))
  }

  function ForfeitWinRow(m: MatchRow, id: nat): int {
    Kept(And(Equals(m.winner, Some(id)), Holds(m.result == XForfeit || m.result == OForfeit)))
  }

  function DrawRow(m: MatchRow, id: nat): int {
    Kept(And(Or(Holds(m.botX == id), Holds(m.botO == id)), Holds(m.result == Cat)))
  }

  function LossRow(m: MatchRow, id: nat): int {
    Kept(And(And(Or(Holds(m.botX == id), Holds(m.botO == id)), Holds(m.result != Cat)),
             Or(Holds(m.winner.None?), Not(Equals(m.winner, Some(id))))))
  }

  function CleanWins(ms: seq<MatchRow>, id: nat): int { Sum(ms, (m: MatchRow) => CleanWinRow(m, id)) }
  function ForfeitWins(ms: seq<MatchRow>, id: nat): int { Sum(ms, (m: MatchRow) => ForfeitWinRow(m, id)) }
  function Draws(ms: seq<MatchRow>, id: nat): int { Sum(ms, (m: MatchRow) => DrawRow(m, id)) }
  function Losses(ms: seq<MatchRow>, id: nat): int { Sum(ms, (m: MatchRow) => LossRow(m, id)) }

  /** The row of `matches` joined with `bots` three times, filtered for lifetime wins. */
  function LifetimeWinRow(m: MatchRow, bx: Bot, bo: Bot, bw: Bot, family: string): int {
    var joined := And(And(Holds(bx.id == m.botX), Holds(bo.id == m.botO)), Equals(Some(bw.id), m.winner));
    var kept := And(Holds(bw.baseName == family),
                    Or(Holds(m.botX == m.botO), Or(Holds(bx.baseName != family), Holds(bo.baseName != family))));
    Kept(And(joined, kept))
  }

  /** The rows the join makes of one match. */
  function LifetimeWinsOf(bots: seq<Bot>, m: MatchRow, family: string): int {
    Sum(bots, (bx: Bot) => Sum(bots, (bo: Bot) => Sum(bots, (bw: Bot) => LifetimeWinRow(m, bx, bo, bw, family))))
  }

  function LifetimeWins(bots: seq<Bot>, ms: seq<MatchRow>, family: string): int {
    Sum(ms, (m: MatchRow) => LifetimeWinsOf(bots, m, family))
  }

  predicate WinnerInFamily(bots: seq<Bot>, m: MatchRow, family: string) {
    exists i :: 0 <= i < |bots| && And(Equals(Some(bots[i].id), m.winner), Holds(bots[i].baseName == family)) == True
  }

  function LifetimeLossRow(bots: seq<Bot>, m: MatchRow, bx: Bot, bo: Bot, family: string): int {
    var joined := And(Holds(bx.id == m.botX), Holds(bo.id == m.botO));
    var kept := And(And(Holds(m.result != Cat), Or(Holds(bx.baseName == family), Holds(bo.baseName == family))),
                    And(Or(Holds(bx.baseName != family), Holds(bo.baseName != family)),
                        Or(Holds(m.winner.None?), Not(Holds(WinnerInFamily(bots, m, family))))));
    Kept(And(joined, kept))
  }

  function LifetimeLossesOf(bots: seq<Bot>, m: MatchRow, family: string): int {
    Sum(bots, (bx: Bot) => Sum(bots, (bo: Bot) => LifetimeLossRow(bots, m, bx, bo, family)))
  }

  function LifetimeLosses(bots: seq<Bot>, ms: seq<MatchRow>, family: string): int {
    Sum(ms, (m: MatchRow) => LifetimeLossesOf(bots, m, family))
  }

  // ---------------------------------------------------------------- tables filled by `Record`

  ghost predicate UniqueIds(bots: seq<Bot>) {
    forall i, j :: 0 <= i < j < |bots| ==> bots[i].id != bots[j].id
  }

  ghost predicate UniqueNames(bots: seq<Bot>) {
    forall i, j :: 0 <= i < j < |bots| ==> bots[i].versionedName != bots[j].versionedName
  }

  /** A match row as `Record` writes it, referring to existing bots. */
  ghost predicate Recorded(bots: seq<Bot>, m: MatchRow) {
    && m.winner == WinnerOf(m.result, m.botX, m.botO)
    && (exists i :: 0 <= i < |bots| && bots[i].id == m.botX)
    && (exists j :: 0 <= j < |bots| && bots[j].id == m.botO)
  }

  ghost predicate ValidTables(bots: seq<Bot>, ms: seq<MatchRow>) {
    UniqueIds(bots) && forall k :: 0 <= k < |ms| ==> Recorded(bots, ms[k])
  }

  /** Where a bot stands in the table. */
  ghost function Index(bots: seq<Bot>, id: nat): (i: nat)
    requires exists i :: 0 <= i < |bots| && bots[i].id == id
    ensures i < |bots| && bots[i].id == id
  {
    var i: nat :| i < |bots| && bots[i].id == id;
    i
  }

  ghost function FamilyOf(bots: seq<Bot>, id: nat): string {
    if exists i :: 0 <= i < |bots| && bots[i].id == id then bots[Index(bots, id)].baseName else ""
  }

  predicate Decisive(m: MatchRow) {
    m.result != Cat
  }

  predicate SelfMatch(m: MatchRow) {
    m.botX == m.botO
  }

  ghost predicate SameFamily(bots: seq<Bot>, m: MatchRow) {
    FamilyOf(bots, m.botX) == FamilyOf(bots, m.botO)
  }

  ghost function LoserOf(m: MatchRow): nat {
    if m.winner == Some(m.botX) then m.botO else m.botX
  }

  ghost function One(b: bool): int {
    if b then 1 else 0
  }

  /** A sum over the bots that only the bot `id` contributes to. */
  lemma SumAtId(bots: seq<Bot>, id: nat, f: Bot -> int)
    requires UniqueIds(bots) && (exists i :: 0 <= i < |bots| && bots[i].id == id)
    requires forall i :: 0 <= i < |bots| && bots[i].id != id ==> f(bots[i]) == 0
    ensures Sum(bots, f) == f(bots[Index(bots, id)])
  {
    SumOfOne(bots, f, Index(bots, id));
  }

  lemma WinnerJoin(bots: seq<Bot>, m: MatchRow, bx: Bot, bo: Bot, family: string)
    requires UniqueIds(bots) && Recorded(bots, m)
    ensures Sum(bots, (bw: Bot) => LifetimeWinRow(m, bx, bo, bw, family))
         == One(bx.id == m.botX && bo.id == m.botO && m.winner.Some? && FamilyOf(bots, m.winner.value) == family
                && (SelfMatch(m) || bx.baseName != family || bo.baseName != family))
  {
    var w := if m.winner.Some? then m.winner.value else m.botX;
    SumAtId(bots, w, (bw: Bot) => LifetimeWinRow(m, bx, bo, bw, family));
  }

  /** A recorded match counts once as a lifetime win, for the winner's family, unless it
      was played by two different versions of that family. */
  lemma LifetimeWinOfMatch(bots: seq<Bot>, m: MatchRow, family: string)
    requires UniqueIds(bots) && Recorded(bots, m)
    ensures LifetimeWinsOf(bots, m, family)
         == One(Decisive(m) && FamilyOf(bots, m.winner.value) == family && (SelfMatch(m) || !SameFamily(bots, m)))
  {
    var i, j := Index(bots, m.botX), Index(bots, m.botO);
    forall x, o | 0 <= x < |bots| && 0 <= o < |bots|
      ensures x != i || o != j ==> Sum(bots, (bw: Bot) => LifetimeWinRow(m, bots[x], bots[o], bw, family)) == 0
    {
      WinnerJoin(bots, m, bots[x], bots[o], family);
    }
    forall x | 0 <= x < |bots|
      ensures x != i ==> Sum(bots, (bo: Bot) => Sum(bots, (bw: Bot) => LifetimeWinRow(m, bots[x], bo, bw, family))) == 0
    {
      if x != i {
        SumZero(bots, (bo: Bot) => Sum(bots, (bw: Bot) => LifetimeWinRow(m, bots[x], bo, bw, family)));
      }
    }
    WinnerJoin(bots, m, bots[i], bots[j], family);
    SumOfOne(bots, (bo: Bot) => Sum(bots, (bw: Bot) => LifetimeWinRow(m, bots[i], bo, bw, family)), j);
    SumOfOne(bots, (bx: Bot) => Sum(bots, (bo: Bot) => Sum(bots, (bw: Bot) => LifetimeWinRow(m, bx, bo, bw, family))), i);
  }

  /** A recorded match counts once as a lifetime loss, for the loser's family, unless both
      sides are of one family. */
  lemma LifetimeLossOfMatch(bots: seq<Bot>, m: MatchRow, family: string)
    requires UniqueIds(bots) && Recorded(bots, m)
    ensures LifetimeLossesOf(bots, m, family)
         == One(Decisive(m) && FamilyOf(bots, LoserOf(m)) == family && !SameFamily(bots, m))
  {
    var i, j := Index(bots, m.botX), Index(bots, m.botO);
    forall x | 0 <= x < |bots|
      ensures x != i ==> Sum(bots, (bo: Bot) => LifetimeLossRow(bots, m, bots[x], bo, family)) == 0
    {
      if x != i {
        SumZero(bots, (bo: Bot) => LifetimeLossRow(bots, m, bots[x], bo, family));
      }
    }
    SumOfOne(bots, (bo: Bot) => LifetimeLossRow(bots, m, bots[i], bo, family), j);
    SumOfOne(bots, (bx: Bot) => Sum(bots, (bo: Bot) => LifetimeLossRow(bots, m, bx, bo, family)), i);
    if m.winner.Some? {
      assert WinnerInFamily(bots, m, family) <==> FamilyOf(bots, m.winner.value) == family by {
        var w := Index(bots, m.winner.value);
        assert forall k :: 0 <= k < |bots| && bots[k].id == m.winner.value ==> k == w;
      }
    }
  }

  // ---------------------------------------------------------------- the accounting law

  /** What a match adds to a version's wins less its losses. */
  function NetRow(m: MatchRow, id: nat): int {
    CleanWinRow(m, id) + ForfeitWinRow(m, id) - LossRow(m, id)
  }

  /** The winner gains one, the loser loses one, everyone else is unaffected; a bot that
      beats itself only gains. */
  lemma NetOfMatch(bots: seq<Bot>, m: MatchRow, id: nat)
    requires Recorded(bots, m)
    ensures NetRow(m, id) == One(Decisive(m) && m.winner == Some(id)) - One(Decisive(m) && !SelfMatch(m) && LoserOf(m) == id)
    ensures CleanWinRow(m, id) + ForfeitWinRow(m, id) == One(Decisive(m) && m.winner == Some(id))
    ensures LossRow(m, id) == One(Decisive(m) && !SelfMatch(m) && LoserOf(m) == id)
  {
  }

  /** Summed over the versions of one family, a match adds the same on both sides. */
  lemma FamilyNetOfMatch(bots: seq<Bot>, m: MatchRow, family: string)
    requires UniqueIds(bots) && Recorded(bots, m)
    ensures Sum(bots, (b: Bot) => if b.baseName == family then NetRow(m, b.id) else 0)
         == One(Decisive(m) && FamilyOf(bots, m.winner.value) == family && (SelfMatch(m) || !SameFamily(bots, m)))
          - One(Decisive(m) && FamilyOf(bots, LoserOf(m)) == family && !SameFamily(bots, m))
  {
    var total := (b: Bot) => if b.baseName == family then NetRow(m, b.id) else 0;
    if Decisive(m) {
      var w := m.winner.value;
      var gain := (b: Bot) => if b.baseName == family && b.id == w then 1 else 0;
      var loss := (b: Bot) => if b.baseName == family && !SelfMatch(m) && b.id == LoserOf(m) then -1 else 0;
      forall i | 0 <= i < |bots|
        ensures total(bots[i]) == gain(bots[i]) + loss(bots[i])
      {
        NetOfMatch(bots, m, bots[i].id);
      }
      SumOfSums(bots, gain, loss, total);
      SumAtId(bots, w, gain);
      SumAtId(bots, LoserOf(m), loss);
    } else {
      SumZero(bots, total);
    }
  }

  /** Lifetime wins less lifetime losses of a family are the wins less the losses of its
      versions together, although the two sides count self and family matches apart. */
  lemma FamilyAccounts(bots: seq<Bot>, ms: seq<MatchRow>, family: string)
    requires ValidTables(bots, ms)
    ensures LifetimeWins(bots, ms, family) - LifetimeLosses(bots, ms, family)
         == Sum(bots, (b: Bot) =>
              if b.baseName == family then CleanWins(ms, b.id) + ForfeitWins(ms, b.id) - Losses(ms, b.id) else 0)
  {
    var win := (m: MatchRow) => LifetimeWinsOf(bots, m, family);
    var loss := (m: MatchRow) => LifetimeLossesOf(bots, m, family);
    var cell := (m: MatchRow, b: Bot) => if b.baseName == family then NetRow(m, b.id) else 0;
    var net := (m: MatchRow) => Sum(bots, RowOf(cell, m));
    forall k | 0 <= k < |ms|
      ensures win(ms[k]) == net(ms[k]) + loss(ms[k]) && net(ms[k]) == Sum(bots, RowOf(cell, ms[k]))
    {
      LifetimeWinOfMatch(bots, ms[k], family);
      LifetimeLossOfMatch(bots, ms[k], family);
      FamilyNetOfMatch(bots, ms[k], family);
      SumsAgree(bots, (b: Bot) => if b.baseName == family then NetRow(ms[k], b.id) else 0, RowOf(cell, ms[k]));
    }
    SumOfSums(ms, net, loss, win);
    var column := (b: Bot) =>
      if b.baseName == family then CleanWins(ms, b.id) + ForfeitWins(ms, b.id) - Losses(ms, b.id) else 0;
    forall i | 0 <= i < |bots|
      ensures column(bots[i]) == Sum(ms, ColumnOf(cell, bots[i]))
    {
      VersionNet(ms, bots[i], family);
      SumsAgree(ms, ColumnOf(cell, bots[i]), (m: MatchRow) => if bots[i].baseName == family then NetRow(m, bots[i].id) else 0);
    }
    SumSwap(ms, bots, cell, net, column);
  }

  lemma VersionNet(ms: seq<MatchRow>, b: Bot, family: string)
    ensures Sum(ms, (m: MatchRow) => if b.baseName == family then NetRow(m, b.id) else 0)
         == if b.baseName == family then CleanWins(ms, b.id) + ForfeitWins(ms, b.id) - Losses(ms, b.id) else 0
  {
    if b.baseName == family {
      var clean := (m: MatchRow) => CleanWinRow(m, b.id);
      var forfeit := (m: MatchRow) => ForfeitWinRow(m, b.id);
      var lost := (m: MatchRow) => LossRow(m, b.id);
      var won := (m: MatchRow) => CleanWinRow(m, b.id) + ForfeitWinRow(m, b.id);
      SumOfSums(ms, clean, forfeit, won);
      SumOfSums(ms, (m: MatchRow) => if b.baseName == family then NetRow(m, b.id) else 0, lost, won);
    } else {
      SumZero(ms, (m: MatchRow) => if b.baseName == family then NetRow(m, b.id) else 0);
    }
  }

  // ---------------------------------------------------------------- conservation

  /** Every match a version takes part in is exactly one of its clean wins, forfeit wins,
      draws and losses; a match against itself is counted once. */
  lemma VersionPartition(bots: seq<Bot>, ms: seq<MatchRow>, id: nat)
    requires ValidTables(bots, ms)
    ensures CleanWins(ms, id) + ForfeitWins(ms, id) + Draws(ms, id) + Losses(ms, id)
         == Sum(ms, (m: MatchRow) => One(m.botX == id || m.botO == id))
  {
    var won := (m: MatchRow) => CleanWinRow(m, id) + ForfeitWinRow(m, id);
    var notLost := (m: MatchRow) => CleanWinRow(m, id) + ForfeitWinRow(m, id) + DrawRow(m, id);
    var all := (m: MatchRow) => One(m.botX == id || m.botO == id);
    SumOfSums(ms, (m: MatchRow) => CleanWinRow(m, id), (m: MatchRow) => ForfeitWinRow(m, id), won);
    SumOfSums(ms, won, (m: MatchRow) => DrawRow(m, id), notLost);
    forall k | 0 <= k < |ms|
      ensures all(ms[k]) == notLost(ms[k]) + LossRow(ms[k], id)
    {
      NetOfMatch(bots, ms[k], id);
    }
    SumOfSums(ms, notLost, (m: MatchRow) => LossRow(m, id), all);
  }

  function Wins(ms: seq<MatchRow>, id: nat): int {
    CleanWins(ms, id) + ForfeitWins(ms, id)
  }

  lemma WinsByMatch(ms: seq<MatchRow>, id: nat)
    ensures Wins(ms, id) == Sum(ms, (m: MatchRow) => CleanWinRow(m, id) + ForfeitWinRow(m, id))
  {
    SumOfSums(ms, (m: MatchRow) => CleanWinRow(m, id), (m: MatchRow) => ForfeitWinRow(m, id),
              (m: MatchRow) => CleanWinRow(m, id) + ForfeitWinRow(m, id));
  }

  /** Over all versions, wins and cat games together are the matches, and losses are the
      decisive matches that were not self matches. */
  lemma VersionsConserve(bots: seq<Bot>, ms: seq<MatchRow>)
    requires ValidTables(bots, ms)
    ensures Sum(bots, (b: Bot) => Wins(ms, b.id)) == Sum(ms, (m: MatchRow) => One(Decisive(m)))
    ensures Sum(bots, (b: Bot) => Losses(ms, b.id)) == Sum(ms, (m: MatchRow) => One(Decisive(m) && !SelfMatch(m)))
  {
    var won := (m: MatchRow, b: Bot) => CleanWinRow(m, b.id) + ForfeitWinRow(m, b.id);
    var lost := (m: MatchRow, b: Bot) => LossRow(m, b.id);
    forall k | 0 <= k < |ms|
      ensures One(Decisive(ms[k])) == Sum(bots, RowOf(won, ms[k]))
      ensures One(Decisive(ms[k]) && !SelfMatch(ms[k])) == Sum(bots, RowOf(lost, ms[k]))
    {
      var m := ms[k];
      forall i | 0 <= i < |bots|
        ensures won(m, bots[i]) == One(Decisive(m) && m.winner == Some(bots[i].id))
        ensures lost(m, bots[i]) == One(Decisive(m) && !SelfMatch(m) && LoserOf(m) == bots[i].id)
      {
        NetOfMatch(bots, m, bots[i].id);
      }
      SumAtId(bots, if m.winner.Some? then m.winner.value else m.botX, RowOf(won, m));
      SumAtId(bots, LoserOf(m), RowOf(lost, m));
    }
    forall i | 0 <= i < |bots|
      ensures Wins(ms, bots[i].id) == Sum(ms, ColumnOf(won, bots[i]))
      ensures Losses(ms, bots[i].id) == Sum(ms, ColumnOf(lost, bots[i]))
    {
      WinsByMatch(ms, bots[i].id);
      SumsAgree(ms, (m: MatchRow) => CleanWinRow(m, bots[i].id) + ForfeitWinRow(m, bots[i].id), ColumnOf(won, bots[i]));
      SumsAgree(ms, (m: MatchRow) => LossRow(m, bots[i].id), ColumnOf(lost, bots[i]));
    }
    SumSwap(ms, bots, won, (m: MatchRow) => One(Decisive(m)), (b: Bot) => Wins(ms, b.id));
    SumSwap(ms, bots, lost, (m: MatchRow) => One(Decisive(m) && !SelfMatch(m)), (b: Bot) => Losses(ms, b.id));
  }

  /** `families` lists the family of every bot, each once. */
  ghost predicate ListsFamilies(families: seq<string>, bots: seq<Bot>) {
    && (forall i, j :: 0 <= i < j < |families| ==> families[i] != families[j])
    && (forall i :: 0 <= i < |bots| ==> bots[i].baseName in families)
  }

  lemma SumAtFamily(families: seq<string>, bots: seq<Bot>, id: nat, f: string -> int)
    requires ListsFamilies(families, bots) && (exists i :: 0 <= i < |bots| && bots[i].id == id)
    requires forall i :: 0 <= i < |families| && families[i] != FamilyOf(bots, id) ==> f(families[i]) == 0
    ensures Sum(families, f) == f(FamilyOf(bots, id))
  {
    var family := FamilyOf(bots, id);
    assert family in families;
    var k :| 0 <= k < |families| && families[k] == family;
    SumOfOne(families, f, k);
  }

  /** Over all families, lifetime wins are the decisive matches other than those between
      different versions of a family, and lifetime losses those between two families. */
  lemma FamiliesConserve(bots: seq<Bot>, ms: seq<MatchRow>, families: seq<string>)
    requires ValidTables(bots, ms) && ListsFamilies(families, bots)
    ensures Sum(families, (f: string) => LifetimeWins(bots, ms, f))
         == Sum(ms, (m: MatchRow) => One(Decisive(m) && (SelfMatch(m) || !SameFamily(bots, m))))
    ensures Sum(families, (f: string) => LifetimeLosses(bots, ms, f))
         == Sum(ms, (m: MatchRow) => One(Decisive(m) && !SameFamily(bots, m)))
  {
    var won := (m: MatchRow, f: string) => LifetimeWinsOf(bots, m, f);
    var lost := (m: MatchRow, f: string) => LifetimeLossesOf(bots, m, f);
    forall k | 0 <= k < |ms|
      ensures One(Decisive(ms[k]) && (SelfMatch(ms[k]) || !SameFamily(bots, ms[k]))) == Sum(families, RowOf(won, ms[k]))
      ensures One(Decisive(ms[k]) && !SameFamily(bots, ms[k])) == Sum(families, RowOf(lost, ms[k]))
    {
      FamilyWinsOfMatch(bots, ms[k], families);
      FamilyLossesOfMatch(bots, ms[k], families);
      SumsAgree(families, (f: string) => LifetimeWinsOf(bots, ms[k], f), RowOf(won, ms[k]));
      SumsAgree(families, (f: string) => LifetimeLossesOf(bots, ms[k], f), RowOf(lost, ms[k]));
    }
    forall i | 0 <= i < |families|
      ensures LifetimeWins(bots, ms, families[i]) == Sum(ms, ColumnOf(won, families[i]))
      ensures LifetimeLosses(bots, ms, families[i]) == Sum(ms, ColumnOf(lost, families[i]))
    {
      SumsAgree(ms, (m: MatchRow) => LifetimeWinsOf(bots, m, families[i]), ColumnOf(won, families[i]));
      SumsAgree(ms, (m: MatchRow) => LifetimeLossesOf(bots, m, families[i]), ColumnOf(lost, families[i]));
    }
    SumSwap(ms, families, won, (m: MatchRow) => One(Decisive(m) && (SelfMatch(m) || !SameFamily(bots, m))),
            (f: string) => LifetimeWins(bots, ms, f));
    SumSwap(ms, families, lost, (m: MatchRow) => One(Decisive(m) && !SameFamily(bots, m)),
            (f: string) => LifetimeLosses(bots, ms, f));
  }

  lemma FamilyWinsOfMatch(bots: seq<Bot>, m: MatchRow, families: seq<string>)
    requires UniqueIds(bots) && Recorded(bots, m) && ListsFamilies(families, bots)
    ensures Sum(families, (f: string) => LifetimeWinsOf(bots, m, f))
         == One(Decisive(m) && (SelfMatch(m) || !SameFamily(bots, m)))
  {
    var won := (f: string) => LifetimeWinsOf(bots, m, f);
    var winner := if m.winner.Some? then m.winner.value else m.botX;
    forall i | 0 <= i < |families| && families[i] != FamilyOf(bots, winner)
      ensures won(families[i]) == 0
    {
      LifetimeWinOfMatch(bots, m, families[i]);
    }
    SumAtFamily(families, bots, winner, won);
    LifetimeWinOfMatch(bots, m, FamilyOf(bots, winner));
  }

  lemma FamilyLossesOfMatch(bots: seq<Bot>, m: MatchRow, families: seq<string>)
    requires UniqueIds(bots) && Recorded(bots, m) && ListsFamilies(families, bots)
    ensures Sum(families, (f: string) => LifetimeLossesOf(bots, m, f)) == One(Decisive(m) && !SameFamily(bots, m))
  {
    var lost := (f: string) => LifetimeLossesOf(bots, m, f);
    forall i | 0 <= i < |families| && families[i] != FamilyOf(bots, LoserOf(m))
      ensures lost(families[i]) == 0
    {
      LifetimeLossOfMatch(bots, m, families[i]);
    }
    SumAtFamily(families, bots, LoserOf(m), lost);
    LifetimeLossOfMatch(bots, m, FamilyOf(bots, LoserOf(m)));
  }

  /** Leaving out the matches within a family does not leave out self matches: this one is
      a lifetime win, and no lifetime loss. */
  lemma SelfMatchCounts(b: Bot, m: MatchRow)
    requires m.botX == m.botO == b.id && m.result == XWins && m.winner == Some(b.id)
    ensures ValidTables([b], [m])
    ensures LifetimeWins([b], [m], b.baseName) == 1 && LifetimeLosses([b], [m], b.baseName) == 0
  {
    assert Recorded([b], m) by {
      assert [b][0].id == b.id;
    }
    assert FamilyOf([b], b.id) == b.baseName;
    LifetimeWinOfMatch([b], m, b.baseName);
    LifetimeLossOfMatch([b], m, b.baseName);
    SumOfSingle(m, (r: MatchRow) => LifetimeWinsOf([b], r, b.baseName));
    SumOfSingle(m, (r: MatchRow) => LifetimeLossesOf([b], r, b.baseName));
  }

  // ---------------------------------------------------------------- what a game counts as

  /** The row of a legal game counts for a version as exactly one of: a clean win, if its
      side made the last move and completed a line with it; a forfeit win, if the last move
      is an error of the other side; a draw, if it took part and nine moves without error
      ended without a line; a loss, if it took part and neither drew nor won. */
  lemma GameCounts(a: Loop.Arena, boards: seq<Board>, result: Loop.MatchResult, m: MatchRow, moves: seq<MoveRow>, id: nat)
    requires StoresGame(a, boards, result, m, moves)
    ensures var n := |result.moves|; var last := result.moves[n - 1];
      var line := last.error.None? && HasLine(a.lines, boards[n], last.player);
      var plays := m.botX == id || m.botO == id;
      var clean := line && SideOf(last.player, m.botX, m.botO) == id;
      var forfeit := last.error.Some? && SideOf(last.player.Other(), m.botX, m.botO) == id;
      var draw := plays && last.error.None? && !line && n == 9;
      && CleanWinRow(m, id) == One(clean) && ForfeitWinRow(m, id) == One(forfeit) && DrawRow(m, id) == One(draw)
      && LossRow(m, id) == One(plays && !clean && !forfeit && !draw)
  {
    var n := |result.moves|;
    var last := result.moves[n - 1];
    Loop.OutcomeMeaning(a, boards, result, X);
    Loop.OutcomeMeaning(a, boards, result, O);
    assert last.player == X || last.player == O;
  }
}
