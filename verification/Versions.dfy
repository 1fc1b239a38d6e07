/** Version allocation by concurrent submissions: each reads the next version and later
    inserts a row, protected only by the unique constraint on the versioned name. */
module Versions {
  import opened Boards
  import opened Naming
  import opened Store
  import L = Leaderboard

  /** `max(version)` over the rows of a family, 0 when there are none. */
  function MaxVersion(bots: seq<Bot>, base: string): nat {
    if bots == [] then 0
    else
      var rest := MaxVersion(bots[..|bots| - 1], base);
      var last := bots[|bots| - 1];
      if last.baseName == base && last.version > rest then last.version else rest
  }

  lemma {:induction false} MaxVersionSpec(bots: seq<Bot>, base: string)
    ensures forall i :: 0 <= i < |bots| && bots[i].baseName == base ==> bots[i].version <= MaxVersion(bots, base)
    ensures MaxVersion(bots, base) > 0 ==>
      exists i :: 0 <= i < |bots| && bots[i].baseName == base && bots[i].version == MaxVersion(bots, base)
  {
    if bots != [] {
      var front := bots[..|bots| - 1];
      MaxVersionSpec(front, base);
      if MaxVersion(bots, base) > 0 && MaxVersion(bots, base) == MaxVersion(front, base) {
        var i :| 0 <= i < |front| && front[i].baseName == base && front[i].version == MaxVersion(front, base);
        assert bots[i] == front[i];
      }
    }
  }

  predicate NameTaken(bots: seq<Bot>, name: string) {
    exists i :: 0 <= i < |bots| && bots[i].versionedName == name
  }

  function NewBot(id: nat, base: string, version: nat, runtimeKey: string): Bot {
    Bot(id, base, VersionedName(base, version), version, runtimeKey, None, false)
  }

  class BotRepository {
    var bots: seq<Bot>
    var nextId: nat

    constructor ()
      ensures bots == [] && nextId == 1
    {
      bots, nextId := [], 1;
    }

    method NextVersion(base: string) returns (version: nat)
      ensures version == MaxVersion(bots, base) + 1
    {
      var current := 0;
      for i := 0 to |bots|
        invariant current == MaxVersion(bots[..i], base)
      {
        assert bots[..i + 1][..i] == bots[..i];
        if bots[i].baseName == base && bots[i].version > current {
          current := bots[i].version;
        }
      }
      assert bots[..|bots|] == bots;
      version := current + 1;
    }

    /** The insert: the unique constraint refuses a versioned name that exists. An
        attempt uses up an id either way. */
    method Create(base: string, version: nat, runtimeKey: string) returns (id: Option<nat>)
      modifies this
      ensures nextId == old(nextId) + 1
      ensures NameTaken(old(bots), VersionedName(base, version)) ==> id == None && bots == old(bots)
      ensures !NameTaken(old(bots), VersionedName(base, version)) ==>
        id == Some(old(nextId)) && bots == old(bots) + [NewBot(old(nextId), base, version, runtimeKey)]
    {
      var newId := nextId;
      nextId := nextId + 1;
      if NameTaken(bots, VersionedName(base, version)) {
        return None;
      }
      bots := bots + [NewBot(newId, base, version, runtimeKey)];
      id := Some(newId);
    }
  }

  // ---------------------------------------------------------------- interleaved submissions

  /** A submission between its read and its insert. */
  datatype Pending = Pending(base: string, version: nat, runtimeKey: string)

  datatype State = State(bots: seq<Bot>, nextId: nat, pending: map<nat, Pending>)

  datatype Step = ReadVersion(request: nat, name: Option<string>, runtimeKey: string) | Insert(request: nat)

  const START := State([], 1, map[])

  /** What one step of a submission does; a refused name stops its submission. */
  function Apply(s: State, step: Step): State {
    match step
    case ReadVersion(request, name, runtimeKey) =>
      if ValidateBotName(name).Some? then s
      else s.(pending := s.pending[request := Pending(name.value, MaxVersion(s.bots, name.value) + 1, runtimeKey)])
    case Insert(request) =>
      if request !in s.pending then s
      else
        var p := s.pending[request];
        var after := s.(nextId := s.nextId + 1, pending := s.pending - {request});
        if NameTaken(s.bots, VersionedName(p.base, p.version)) then after
        else after.(bots := s.bots + [NewBot(s.nextId, p.base, p.version, p.runtimeKey)])
  }

  function Run(steps: seq<Step>): State {
    if steps == [] then START else Apply(Run(steps[..|steps| - 1]), steps[|steps| - 1])
  }

  predicate HasVersion(bots: seq<Bot>, base: string, version: nat) {
    exists i :: 0 <= i < |bots| && bots[i].baseName == base && bots[i].version == version
  }

  /** Every family's versions are 1 to its maximum, each once, under accepted names. */
  ghost predicate Table(bots: seq<Bot>) {
    && (forall i :: 0 <= i < |bots| ==>
          Accepted(bots[i].baseName) && bots[i].versionedName == VersionedName(bots[i].baseName, bots[i].version))
    && (forall i, j :: 0 <= i < j < |bots| ==>
          bots[i].id != bots[j].id && (bots[i].baseName != bots[j].baseName || bots[i].version != bots[j].version))
    && (forall base: string, v: nat :: HasVersion(bots, base, v) <==> 1 <= v <= MaxVersion(bots, base))
  }

  ghost predicate Invariant(s: State) {
    && Table(s.bots)
    && (forall i :: 0 <= i < |s.bots| ==> s.bots[i].id < s.nextId)
    && (forall r :: r in s.pending ==>
          Accepted(s.pending[r].base) && 1 <= s.pending[r].version <= MaxVersion(s.bots, s.pending[r].base) + 1)
  }

  /** A name is taken exactly when its family already has that version: distinct families
      never get in each other's way. */
  lemma TakenIffPresent(bots: seq<Bot>, base: string, version: nat)
    requires Table(bots) && Accepted(base)
    ensures NameTaken(bots, VersionedName(base, version)) <==> HasVersion(bots, base, version)
  {
    forall i | 0 <= i < |bots|
      ensures bots[i].versionedName == VersionedName(base, version) <==>
        bots[i].baseName == base && bots[i].version == version
    {
      VersionedNameInjective(bots[i].baseName, bots[i].version, base, version);
    }
  }

  /** An insert succeeds exactly when the version its submission read is still the next
      one of its family. */
  lemma InsertSucceedsIff(s: State, request: nat)
    requires Invariant(s) && request in s.pending
    ensures var p := s.pending[request];
      Apply(s, Insert(request)).bots != s.bots <==> p.version == MaxVersion(s.bots, p.base) + 1
  {
    var p := s.pending[request];
    TakenIffPresent(s.bots, p.base, p.version);
    assert |s.bots + [NewBot(s.nextId, p.base, p.version, p.runtimeKey)]| != |s.bots|;
  }

  lemma HasVersionAppended(bots: seq<Bot>, b: Bot, base: string, v: nat)
    ensures HasVersion(bots + [b], base, v) <==> HasVersion(bots, base, v) || (b.baseName == base && b.version == v)
  {
    var after := bots + [b];
    assert after[|bots|] == b;
    if i :| 0 <= i < |bots| && bots[i].baseName == base && bots[i].version == v {
      assert after[i] == bots[i];
    }
    if i :| 0 <= i < |after| && after[i].baseName == base && after[i].version == v {
      assert i < |bots| ==> after[i] == bots[i];
    }
  }

  lemma MaxAppended(bots: seq<Bot>, b: Bot, base: string)
    ensures MaxVersion(bots + [b], base) ==
      if b.baseName == base && b.version > MaxVersion(bots, base) then b.version else MaxVersion(bots, base)
  {
    assert (bots + [b])[..|bots|] == bots;
  }

  lemma VersionsAppended(bots: seq<Bot>, b: Bot, base: string, v: nat)
    requires HasVersion(bots, base, v) <==> 1 <= v <= MaxVersion(bots, base)
    requires b.version == MaxVersion(bots, b.baseName) + 1
    ensures HasVersion(bots + [b], base, v) <==> 1 <= v <= MaxVersion(bots + [b], base)
  {
    HasVersionAppended(bots, b, base, v);
    MaxAppended(bots, b, base);
  }

  lemma AppendKeepsTable(bots: seq<Bot>, b: Bot)
    requires Table(bots) && Accepted(b.baseName) && b.versionedName == VersionedName(b.baseName, b.version)
    requires b.version == MaxVersion(bots, b.baseName) + 1
    requires forall i :: 0 <= i < |bots| ==> bots[i].id != b.id
    ensures Table(bots + [b])
    ensures forall base: string :: MaxVersion(bots + [b], base) >= MaxVersion(bots, base)
  {
    var after := bots + [b];
    MaxVersionSpec(bots, b.baseName);
    forall base: string, v: nat
      ensures HasVersion(after, base, v) <==> 1 <= v <= MaxVersion(after, base)
    {
      assert HasVersion(bots, base, v) <==> 1 <= v <= MaxVersion(bots, base);
      VersionsAppended(bots, b, base, v);
    }
    forall base: string
      ensures MaxVersion(after, base) >= MaxVersion(bots, base)
    {
      MaxAppended(bots, b, base);
    }
  }

  lemma StepKeepsInvariant(s: State, step: Step)
    requires Invariant(s)
    ensures Invariant(Apply(s, step))
  {
    match step {
      case ReadVersion(request, name, runtimeKey) =>
      case Insert(request) =>
        if request in s.pending {
          var p := s.pending[request];
          TakenIffPresent(s.bots, p.base, p.version);
          if !NameTaken(s.bots, VersionedName(p.base, p.version)) {
            AppendKeepsTable(s.bots, NewBot(s.nextId, p.base, p.version, p.runtimeKey));
          }
        }
    }
  }

  /** However submissions interleave, every family's versions are exactly 1 to n. */
  lemma {:induction false} VersionsStayContiguous(steps: seq<Step>)
    ensures Invariant(Run(steps))
  {
    if steps != [] {
      VersionsStayContiguous(steps[..|steps| - 1]);
      StepKeepsInvariant(Run(steps[..|steps| - 1]), steps[|steps| - 1]);
    }
  }

  // ---------------------------------------------------------------- what a submission adds

  /** The number of rows of a family. */
  function FamilySize(bots: seq<Bot>, base: string): nat {
    if bots == [] then 0
    else FamilySize(bots[..|bots| - 1], base) + if bots[|bots| - 1].baseName == base then 1 else 0
  }

  lemma SizeAppended(bots: seq<Bot>, b: Bot, base: string)
    ensures FamilySize(bots + [b], base) == FamilySize(bots, base) + if b.baseName == base then 1 else 0
  {
    assert (bots + [b])[..|bots|] == bots;
  }

  /** An insert leaves the table or adds the row its submission asked for. */
  lemma InsertAdds(s: State, request: nat)
    requires Invariant(s) && request in s.pending
    ensures var p, s' := s.pending[request], Apply(s, Insert(request));
      if p.version == MaxVersion(s.bots, p.base) + 1
      then s'.bots == s.bots + [NewBot(s.nextId, p.base, p.version, p.runtimeKey)]
      else s'.bots == s.bots
  {
    TakenIffPresent(s.bots, s.pending[request].base, s.pending[request].version);
  }

  lemma StepKeepsSize(s: State, step: Step, base: string)
    requires Invariant(s) && FamilySize(s.bots, base) == MaxVersion(s.bots, base)
    ensures FamilySize(Apply(s, step).bots, base) == MaxVersion(Apply(s, step).bots, base)
  {
    if step.Insert? && step.request in s.pending {
      var p := s.pending[step.request];
      var row := NewBot(s.nextId, p.base, p.version, p.runtimeKey);
      InsertAdds(s, step.request);
      SizeAppended(s.bots, row, base);
      MaxAppended(s.bots, row, base);
    }
  }

  /** In every reachable table a family has as many rows as its maximal version. */
  lemma {:induction false} SizeIsMaxVersion(steps: seq<Step>, base: string)
    ensures FamilySize(Run(steps).bots, base) == MaxVersion(Run(steps).bots, base)
  {
    if steps != [] {
      SizeIsMaxVersion(steps[..|steps| - 1], base);
      VersionsStayContiguous(steps[..|steps| - 1]);
      StepKeepsSize(Run(steps[..|steps| - 1]), steps[|steps| - 1], base);
    }
  }

  /** The submission `request` has read the version that is still the next one. */
  predicate HasRead(s: State, request: nat, name: string, key: string) {
    request in s.pending && s.pending[request] == Pending(name, MaxVersion(s.bots, name) + 1, key)
  }

  /** The step is neither of this submission nor an insert of its family. */
  predicate LeavesAlone(s: State, step: Step, request: nat, name: string) {
    && step.request != request
    && (step.Insert? && step.request in s.pending ==> s.pending[step.request].base != name)
  }

  /** An insert of another family. */
  lemma InsertsElsewhere(s: State, request: nat, name: string)
    requires Invariant(s) && request in s.pending && s.pending[request].base != name
    ensures var after := Apply(s, Insert(request)).bots;
      MaxVersion(after, name) == MaxVersion(s.bots, name) && FamilySize(after, name) == FamilySize(s.bots, name)
  {
    var p := s.pending[request];
    var row := NewBot(s.nextId, p.base, p.version, p.runtimeKey);
    InsertAdds(s, request);
    SizeAppended(s.bots, row, name);
    MaxAppended(s.bots, row, name);
  }

  lemma OthersKeepPending(s: State, step: Step, request: nat)
    requires step.request != request && request in s.pending
    ensures request in Apply(s, step).pending && Apply(s, step).pending[request] == s.pending[request]
    ensures (step.Insert? && step.request in s.pending) || Apply(s, step).bots == s.bots
  {
  }

  lemma OthersKeepRead(s: State, step: Step, request: nat, name: string, key: string)
    requires Invariant(s) && HasRead(s, request, name, key) && LeavesAlone(s, step, request, name)
    ensures HasRead(Apply(s, step), request, name, key) && FamilySize(Apply(s, step).bots, name) == FamilySize(s.bots, name)
  {
    OthersKeepPending(s, step, request);
    if step.Insert? && step.request in s.pending {
      InsertsElsewhere(s, step.request, name);
    }
  }

  /** None of `between`, from the state after `before` on, is of this submission or an
      insert of its family. */
  ghost predicate Undisturbed(before: seq<Step>, between: seq<Step>, request: nat, name: string) {
    forall k :: 0 <= k < |between| ==> LeavesAlone(Run(before + between[..k]), between[k], request, name)
  }

  lemma RunOneMore(steps: seq<Step>, step: Step)
    ensures Run(steps + [step]) == Apply(Run(steps), step)
  {
    assert (steps + [step])[..|steps|] == steps;
  }

  lemma RunStep(before: seq<Step>, between: seq<Step>, k: nat)
    requires k < |between|
    ensures Run(before + between[..k + 1]) == Apply(Run(before + between[..k]), between[k])
  {
    RunOneMore(before + between[..k], between[k]);
    assert before + between[..k] + [between[k]] == before + between[..k + 1];
  }

  /** The read still holds, and the family is as large as at first. */
  predicate StillRead(first: State, s: State, request: nat, name: string, key: string) {
    HasRead(s, request, name, key) && FamilySize(s.bots, name) == FamilySize(first.bots, name)
  }

  lemma {:induction false} ReadLasts(before: seq<Step>, between: seq<Step>, request: nat, name: string, key: string, k: nat)
    requires HasRead(Run(before), request, name, key) && Undisturbed(before, between, request, name)
    requires k <= |between|
    ensures StillRead(Run(before), Run(before + between[..k]), request, name, key)
  {
    if k == 0 {
      assert before + between[..0] == before;
    } else {
      ReadLasts(before, between, request, name, key, k - 1);
      VersionsStayContiguous(before + between[..k - 1]);
      OthersKeepRead(Run(before + between[..k - 1]), between[k - 1], request, name, key);
      RunStep(before, between, k - 1);
    }
  }

  /** The row a submission adds to a family of `size` rows. */
  predicate IsNextRow(row: Bot, name: string, key: string, size: nat) {
    && row.baseName == name && row.version == size + 1 && row.runtimeKey == key
    && row.versionedName == (if size == 0 then name else name + "V" + Decimal(size + 1))
    && !row.podReady && row.podName == None
  }

  lemma NewBotIsNext(id: nat, name: string, key: string, size: nat)
    ensures IsNextRow(NewBot(id, name, size + 1, key), name, key, size)
  {
  }

  /** The table after a submission that has read inserts. */
  ghost predicate AddsNextRow(bots: seq<Bot>, after: seq<Bot>, name: string, key: string, size: nat) {
    |after| == |bots| + 1 && after[..|bots|] == bots && IsNextRow(after[|bots|], name, key, size)
  }

  lemma InsertAddsNext(s: State, request: nat, name: string, key: string, size: nat)
    requires Invariant(s) && HasRead(s, request, name, key) && size == MaxVersion(s.bots, name)
    ensures AddsNextRow(s.bots, Apply(s, Insert(request)).bots, name, key, size)
  {
    InsertAdds(s, request);
    NewBotIsNext(s.nextId, name, key, size);
  }

  lemma ReadReads(s: State, request: nat, name: string, key: string)
    requires Accepted(name)
    ensures HasRead(Apply(s, ReadVersion(request, Some(name), key)), request, name, key)
    ensures Apply(s, ReadVersion(request, Some(name), key)).bots == s.bots
  {
  }

  /** From every reachable state: an accepted submission that reads and then inserts, without
      another insert of its family in between, adds exactly one row, the next of the family. */
  lemma SubmissionAddsARow(before: seq<Step>, between: seq<Step>, request: nat, name: string, key: string)
    requires Accepted(name)
    requires Undisturbed(before + [ReadVersion(request, Some(name), key)], between, request, name)
    ensures var read := before + [ReadVersion(request, Some(name), key)];
      AddsNextRow(Run(read + between).bots, Run(read + between + [Insert(request)]).bots, name, key,
                  FamilySize(Run(before).bots, name))
  {
    var read := before + [ReadVersion(request, Some(name), key)];
    RunOneMore(before, ReadVersion(request, Some(name), key));
    ReadReads(Run(before), request, name, key);
    ReadLasts(read, between, request, name, key, |between|);
    assert between[..|between|] == between;
    VersionsStayContiguous(read + between);
    SizeIsMaxVersion(read + between, name);
    RunOneMore(read + between, Insert(request));
    InsertAddsNext(Run(read + between), request, name, key, FamilySize(Run(before).bots, name));
  }

  // ---------------------------------------------------------------- the leaderboard's rows

  /** The bots joined with the latest version of their family. */
  function LatestBots(bots: seq<Bot>, all: seq<Bot>): seq<Bot> {
    if bots == [] then []
    else
      var rest := LatestBots(bots[..|bots| - 1], all);
      var b := bots[|bots| - 1];
      if b.version == MaxVersion(all, b.baseName) then rest + [b] else rest
  }

  function BaseNames(bots: seq<Bot>): (names: seq<string>)
    ensures |names| == |bots| && forall i :: 0 <= i < |bots| ==> names[i] == bots[i].baseName
  {
    seq(|bots|, i requires 0 <= i < |bots| => bots[i].baseName)
  }

  lemma {:induction false} LatestAreMaximal(bots: seq<Bot>, all: seq<Bot>)
    ensures forall b: Bot :: b in LatestBots(bots, all) <==> b in bots && b.version == MaxVersion(all, b.baseName)
  {
    if bots != [] {
      LatestAreMaximal(bots[..|bots| - 1], all);
      assert bots == bots[..|bots| - 1] + [bots[|bots| - 1]];
    }
  }

  ghost predicate VersionsApart(bots: seq<Bot>) {
    forall i, j :: 0 <= i < j < |bots| ==> bots[i].baseName != bots[j].baseName || bots[i].version != bots[j].version
  }

  ghost predicate FamiliesApart(bots: seq<Bot>) {
    forall i, j :: 0 <= i < j < |bots| ==> bots[i].baseName != bots[j].baseName
  }

  lemma LastIsApart(front: seq<Bot>, b: Bot, all: seq<Bot>, k: nat)
    requires VersionsApart(front + [b]) && b.version == MaxVersion(all, b.baseName) && k < |LatestBots(front, all)|
    ensures LatestBots(front, all)[k].baseName != b.baseName
  {
    var other := LatestBots(front, all)[k];
    LatestAreMaximal(front, all);
    assert other in LatestBots(front, all);
    var i :| 0 <= i < |front| && front[i] == other;
    assert (front + [b])[i] == other && (front + [b])[|front|] == b;
  }

  lemma {:induction false} LatestAreApart(bots: seq<Bot>, all: seq<Bot>)
    requires VersionsApart(bots)
    ensures FamiliesApart(LatestBots(bots, all))
  {
    if bots != [] {
      var front, b := bots[..|bots| - 1], bots[|bots| - 1];
      LatestAreApart(front, all);
      assert bots == front + [b];
      var latest := LatestBots(front, all);
      if b.version == MaxVersion(all, b.baseName) {
        forall k | 0 <= k < |latest|
          ensures latest[k].baseName != b.baseName
        {
          LastIsApart(front, b, all, k);
        }
        assert LatestBots(bots, all) == latest + [b];
      } else {
        assert LatestBots(bots, all) == latest;
      }
    }
  }

  lemma {:induction false} LatestBotsSpec(bots: seq<Bot>, all: seq<Bot>)
    requires VersionsApart(bots)
    ensures var latest := LatestBots(bots, all);
      && (forall b: Bot :: b in latest <==> b in bots && b.version == MaxVersion(all, b.baseName))
      && FamiliesApart(latest)
  {
    LatestAreMaximal(bots, all);
    LatestAreApart(bots, all);
  }

  lemma FamilyIsListed(bots: seq<Bot>, i: nat)
    requires Table(bots) && i < |bots|
    ensures bots[i].baseName in BaseNames(LatestBots(bots, bots))
  {
    var base, rows := bots[i].baseName, LatestBots(bots, bots);
    LatestBotsSpec(bots, bots);
    MaxVersionSpec(bots, base);
    assert HasVersion(bots, base, bots[i].version);
    var j :| 0 <= j < |bots| && bots[j].baseName == base && bots[j].version == MaxVersion(bots, base);
    assert bots[j] in rows;
    var k :| 0 <= k < |rows| && rows[k] == bots[j];
    assert BaseNames(rows)[k] == base;
  }

  lemma RowIsFamily(bots: seq<Bot>, k: nat)
    requires Table(bots) && k < |LatestBots(bots, bots)|
    ensures exists i :: 0 <= i < |bots| && bots[i].baseName == BaseNames(LatestBots(bots, bots))[k]
  {
    LatestBotsSpec(bots, bots);
    assert LatestBots(bots, bots)[k] in bots;
    var i :| 0 <= i < |bots| && bots[i] == LatestBots(bots, bots)[k];
  }

  lemma RowsListFamilies(bots: seq<Bot>)
    requires Table(bots)
    ensures L.ListsFamilies(BaseNames(LatestBots(bots, bots)), bots)
  {
    LatestBotsSpec(bots, bots);
    forall i | 0 <= i < |bots|
      ensures bots[i].baseName in BaseNames(LatestBots(bots, bots))
    {
      FamilyIsListed(bots, i);
    }
  }

  /** In every reachable table the leaderboard has exactly one row per family: every family
      is listed once, and nothing else. */
  lemma OneRowPerFamily(steps: seq<Step>)
    ensures var bots := Run(steps).bots; var families := BaseNames(LatestBots(bots, bots));
      && L.ListsFamilies(families, bots)
      && forall k :: 0 <= k < |families| ==> exists i :: 0 <= i < |bots| && bots[i].baseName == families[k]
  {
    var bots := Run(steps).bots;
    VersionsStayContiguous(steps);
    RowsListFamilies(bots);
    forall k | 0 <= k < |LatestBots(bots, bots)|
      ensures exists i :: 0 <= i < |bots| && bots[i].baseName == BaseNames(LatestBots(bots, bots))[k]
    {
      RowIsFamily(bots, k);
    }
  }

  /** In every reachable table ids and versioned names are unique. */
  lemma NamesStayUnique(steps: seq<Step>)
    ensures L.UniqueIds(Run(steps).bots) && L.UniqueNames(Run(steps).bots)
  {
    var bots := Run(steps).bots;
    VersionsStayContiguous(steps);
    forall i, j | 0 <= i < j < |bots|
      ensures bots[i].versionedName != bots[j].versionedName
    {
      VersionedNameInjective(bots[i].baseName, bots[i].version, bots[j].baseName, bots[j].version);
    }
  }

  /** The lifetime columns of the leaderboard add up over its rows: wins to the decisive
      matches that are not between different versions of a family, losses to the decisive
      matches between two families. */
  lemma LeaderboardConserves(steps: seq<Step>, ms: seq<MatchRow>)
    requires forall k :: 0 <= k < |ms| ==> L.Recorded(Run(steps).bots, ms[k])
    ensures var bots := Run(steps).bots; var rows := BaseNames(LatestBots(bots, bots));
      && L.Sum(rows, (f: string) => L.LifetimeWins(bots, ms, f))
           == L.Sum(ms, (m: MatchRow) => L.One(L.Decisive(m) && (L.SelfMatch(m) || !L.SameFamily(bots, m))))
      && L.Sum(rows, (f: string) => L.LifetimeLosses(bots, ms, f))
           == L.Sum(ms, (m: MatchRow) => L.One(L.Decisive(m) && !L.SameFamily(bots, m)))
  {
    var bots := Run(steps).bots;
    VersionsStayContiguous(steps);
    OneRowPerFamily(steps);
    L.FamiliesConserve(bots, ms, BaseNames(LatestBots(bots, bots)));
  }
}
