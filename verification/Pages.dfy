/** The bot page: the family's match list grouped by version. */
module Pages {
  import opened Boards
  import opened Store
  import opened Leaderboard

  /** A match as the pages show it, with the names of both sides joined in. */
  datatype MatchView = MatchView(id: nat, botX: string, botXBase: string, botO: string, botOBase: string)

  /** Every match with a version of `family` on either side, in table order. */
  ghost function ListForBot(bots: seq<Bot>, ms: seq<MatchRow>, family: string): seq<MatchView>
    requires forall k :: 0 <= k < |ms| ==> Recorded(bots, ms[k])
  {
    if ms == [] then []
    else
      assert forall k :: 0 <= k < |ms[1..]| ==> ms[1..][k] == ms[k + 1];
      assert Recorded(bots, ms[0]);
      var x, o := bots[Index(bots, ms[0].botX)], bots[Index(bots, ms[0].botO)];
      var rest := ListForBot(bots, ms[1..], family);
      if x.baseName == family || o.baseName == family
      then [MatchView(ms[0].id, x.versionedName, x.baseName, o.versionedName, o.baseName)] + rest
      else rest
  }

  /** The matches in which `name` takes part, in order. */
  function Involving(matches: seq<MatchView>, name: string): seq<MatchView> {
    if matches == [] then []
    else
      var last := matches[|matches| - 1];
      var front := Involving(matches[..|matches| - 1], name);
      if last.botX == name || last.botO == name then front + [last] else front
  }

  /** Each version gets the matches it takes part in, in their order; a match between two
      versions appears under both and a self match once. */
  method GroupMatchesByVersion(versions: seq<string>, matches: seq<MatchView>) returns (grouped: map<string, seq<MatchView>>)
    ensures grouped.Keys == set v | v in versions
    ensures forall v :: v in versions ==> grouped[v] == Involving(matches, v)
  {
    grouped := map v | v in versions :: [];
    for i := 0 to |matches|
      invariant grouped.Keys == set v | v in versions
      invariant forall v :: v in versions ==> grouped[v] == Involving(matches[..i], v)
    {
      var m := matches[i];
      assert matches[..i + 1][..i] == matches[..i];
      if m.botX in grouped {
        grouped := grouped[m.botX := grouped[m.botX] + [m]];
      }
      if m.botO in grouped && m.botO != m.botX {
        grouped := grouped[m.botO := grouped[m.botO] + [m]];
      }
    }
    assert matches[..|matches|] == matches;
  }

  lemma {:induction false} InvolvingSplit(front: seq<MatchView>, back: seq<MatchView>, name: string)
    ensures Involving(front + back, name) == Involving(front, name) + Involving(back, name)
  {
    if back == [] {
      assert front + back == front;
    } else {
      var last := |back| - 1;
      InvolvingSplit(front, back[..last], name);
      assert (front + back)[..|front| + last] == front + back[..last];
    }
  }

  /** The group of a version on its family's page has as many matches as the version's
      four statistics add up to. */
  lemma GroupSizeIsStatistics(bots: seq<Bot>, ms: seq<MatchRow>, b: Bot)
    requires ValidTables(bots, ms) && UniqueNames(bots) && b in bots
    ensures |Involving(ListForBot(bots, ms, b.baseName), b.versionedName)|
         == CleanWins(ms, b.id) + ForfeitWins(ms, b.id) + Draws(ms, b.id) + Losses(ms, b.id)
  {
    VersionPartition(bots, ms, b.id);
    GroupSize(bots, ms, b);
  }

  lemma {:induction false} GroupSize(bots: seq<Bot>, ms: seq<MatchRow>, b: Bot)
    requires ValidTables(bots, ms) && UniqueNames(bots) && b in bots
    ensures |Involving(ListForBot(bots, ms, b.baseName), b.versionedName)|
         == Sum(ms, (m: MatchRow) => One(m.botX == b.id || m.botO == b.id))
  {
    if ms != [] {
      var m, rest := ms[0], ms[1..];
      assert forall k :: 0 <= k < |rest| ==> rest[k] == ms[k + 1];
      assert Recorded(bots, m);
      GroupSize(bots, rest, b);
      var i, j := Index(bots, m.botX), Index(bots, m.botO);
      var k :| 0 <= k < |bots| && bots[k] == b;
      assert bots[i].versionedName == b.versionedName <==> m.botX == b.id;
      assert bots[j].versionedName == b.versionedName <==> m.botO == b.id;
      var view := MatchView(m.id, bots[i].versionedName, bots[i].baseName, bots[j].versionedName, bots[j].baseName);
      InvolvingSplit([view], ListForBot(bots, rest, b.baseName), b.versionedName);
      assert [view][..0] == [];
    }
  }

  // ---------------------------------------------------------------- exactly what is listed

  ghost predicate Ascends(at: seq<nat>, size: nat) {
    (forall k :: 0 <= k < |at| ==> at[k] < size) && forall j, k :: 0 <= j < k < |at| ==> at[j] < at[k]
  }

  /** The group of a version is, in order, exactly the matches it takes part in: those at
      the ascending places `at`. */
  lemma {:induction false} InvolvingExact(matches: seq<MatchView>, name: string) returns (at: seq<nat>)
    ensures Ascends(at, |matches|) && |Involving(matches, name)| == |at|
    ensures forall k :: 0 <= k < |at| ==> Involving(matches, name)[k] == matches[at[k]]
    ensures forall i :: 0 <= i < |matches| ==> (i in at <==> matches[i].botX == name || matches[i].botO == name)
  {
    if matches == [] {
      at := [];
    } else {
      var last := |matches| - 1;
      at := InvolvingExact(matches[..last], name);
      if matches[last].botX == name || matches[last].botO == name {
        at := at + [last];
      }
    }
  }

  /** `v` shows the match `m` with the names of its two bots. */
  ghost predicate IsView(bots: seq<Bot>, m: MatchRow, v: MatchView) {
    exists i, j :: 0 <= i < |bots| && 0 <= j < |bots| && bots[i].id == m.botX && bots[j].id == m.botO
      && v == MatchView(m.id, bots[i].versionedName, bots[i].baseName, bots[j].versionedName, bots[j].baseName)
  }

  /** Some version of the family plays in the match. */
  ghost predicate FamilyPlays(bots: seq<Bot>, m: MatchRow, family: string) {
    exists i :: 0 <= i < |bots| && bots[i].baseName == family && (bots[i].id == m.botX || bots[i].id == m.botO)
  }

  lemma ViewOfMatch(bots: seq<Bot>, m: MatchRow, family: string)
    requires UniqueIds(bots) && Recorded(bots, m)
    ensures var x, o := bots[Index(bots, m.botX)], bots[Index(bots, m.botO)];
      && IsView(bots, m, MatchView(m.id, x.versionedName, x.baseName, o.versionedName, o.baseName))
      && (FamilyPlays(bots, m, family) <==> x.baseName == family || o.baseName == family)
  {
    var i, j := Index(bots, m.botX), Index(bots, m.botO);
    assert bots[i].id == m.botX && bots[j].id == m.botO;
  }

  lemma AllShift(later: seq<nat>, n: nat) returns (at: seq<nat>)
    requires Ascends(later, n)
    ensures Ascends(at, n + 1) && |at| == |later| && 0 !in at
    ensures forall k :: 0 <= k < |later| ==> at[k] == later[k] + 1
  {
    at := seq(|later|, k requires 0 <= k < |later| => later[k] + 1);
  }

  lemma ShiftedMember(later: seq<nat>, at: seq<nat>, i: nat)
    requires |at| == |later| && forall k :: 0 <= k < |later| ==> at[k] == later[k] + 1
    ensures i + 1 in at <==> i in later
  {
    if i in later {
      var k :| 0 <= k < |later| && later[k] == i;
      assert at[k] == i + 1;
    }
  }

  /** The places of a list after a first element that is kept or not. */
  lemma PlacesShift(later: seq<nat>, n: nat, first: bool) returns (at: seq<nat>)
    requires Ascends(later, n)
    ensures Ascends(at, n + 1) && |at| == |later| + if first then 1 else 0
    ensures first ==> at[0] == 0
    ensures forall k :: 0 <= k < |later| ==> at[if first then k + 1 else k] == later[k] + 1
    ensures 0 in at <==> first
    ensures forall i :: 0 < i <= n ==> (i in at <==> i - 1 in later)
  {
    var shifted := AllShift(later, n);
    at := if first then [0] + shifted else shifted;
    forall i | 0 < i <= n
      ensures i in at <==> i - 1 in later
    {
      ShiftedMember(later, shifted, i - 1);
      assert i in at <==> i in shifted;
    }
  }

  /** The first match is shown exactly if the family plays in it. */
  lemma ListForBotFirst(bots: seq<Bot>, ms: seq<MatchRow>, family: string)
    requires ValidTables(bots, ms) && ms != []
    ensures ValidTables(bots, ms[1..])
    ensures var list, rest := ListForBot(bots, ms, family), ListForBot(bots, ms[1..], family);
      if FamilyPlays(bots, ms[0], family) then |list| == |rest| + 1 && IsView(bots, ms[0], list[0]) && list[1..] == rest
      else list == rest
  {
    assert forall k :: 0 <= k < |ms[1..]| ==> ms[1..][k] == ms[k + 1];
    assert Recorded(bots, ms[0]);
    ViewOfMatch(bots, ms[0], family);
  }

  /** `list` shows, in order, exactly the matches a version of the family plays in: those at
      the ascending places `at`. */
  ghost predicate ListsAt(bots: seq<Bot>, ms: seq<MatchRow>, family: string, list: seq<MatchView>, at: seq<nat>) {
    && Ascends(at, |ms|) && |list| == |at|
    && (forall k :: 0 <= k < |at| ==> IsView(bots, ms[at[k]], list[k]))
    && (forall i :: 0 <= i < |ms| ==> (i in at <==> FamilyPlays(bots, ms[i], family)))
  }

  lemma ListsOneMore(bots: seq<Bot>, ms: seq<MatchRow>, family: string, rest: seq<MatchView>, later: seq<nat>,
                     list: seq<MatchView>) returns (at: seq<nat>)
    requires ms != [] && ListsAt(bots, ms[1..], family, rest, later)
    requires if FamilyPlays(bots, ms[0], family) then |list| == |rest| + 1 && IsView(bots, ms[0], list[0]) && list[1..] == rest
             else list == rest
    ensures ListsAt(bots, ms, family, list, at)
  {
    var first := FamilyPlays(bots, ms[0], family);
    at := PlacesShift(later, |ms| - 1, first);
    forall k | 0 <= k < |at|
      ensures IsView(bots, ms[at[k]], list[k])
    {
      if !first || k > 0 {
        var j := if first then k - 1 else k;
        assert at[k] == later[j] + 1 && list[k] == rest[j] && ms[1..][later[j]] == ms[at[k]];
      }
    }
    forall i | 0 <= i < |ms|
      ensures i in at <==> FamilyPlays(bots, ms[i], family)
    {
      if i > 0 {
        assert ms[1..][i - 1] == ms[i];
      }
    }
  }

  /** The family's list shows, in order, exactly the matches a version of it plays in. */
  lemma {:induction false} ListForBotExact(bots: seq<Bot>, ms: seq<MatchRow>, family: string) returns (at: seq<nat>)
    requires ValidTables(bots, ms)
    ensures ListsAt(bots, ms, family, ListForBot(bots, ms, family), at)
  {
    if ms == [] {
      at := [];
    } else {
      ListForBotFirst(bots, ms, family);
      var later := ListForBotExact(bots, ms[1..], family);
      at := ListsOneMore(bots, ms, family, ListForBot(bots, ms[1..], family), later, ListForBot(bots, ms, family));
    }
  }
}
