/** The whole platform: submissions allocate versions and insert bots, and the pipeline
    builds, schedules and plays them, over the same tables. */
module Platform {
  import opened Boards
  import opened Naming
  import opened Store
  import opened Submission
  import V = Versions
  import P = Pipeline
  import L = Leaderboard
  import Pages

  datatype State = State(versions: V.State, pipeline: P.State)

  datatype Step =
    | Submit(request: nat, docstring: string)
    | Insert(request: nat)
    | Handle(step: P.Step)

  function Opened(): State {
    State(V.START, P.Start(RUNTIMES))
  }

  ghost predicate Enabled(s: State, step: Step) {
    step.Handle? ==> !step.step.InsertBot? && P.Enabled(s.pipeline, step.step)
  }

  /** A submission without a known runtime is refused, as is one without an acceptable
      name; an insert that the unique constraint lets through adds the row the pipeline
      will build. */
  ghost function Apply(s: State, step: Step): State
    requires Enabled(s, step)
  {
    match step
    case Submit(request, docstring) =>
      (match RuntimeKey(docstring)
       case None => s
       case Some(key) => s.(versions := V.Apply(s.versions, V.ReadVersion(request, BotName(docstring), key))))
    case Insert(request) =>
      var after := V.Apply(s.versions, V.Insert(request));
      if |after.bots| > |s.versions.bots| then State(after, P.WithBot(s.pipeline, after.bots[|after.bots| - 1]))
      else State(after, s.pipeline)
    case Handle(h) => s.(pipeline := P.Apply(s.pipeline, h))
  }

  ghost predicate IsRun(states: seq<State>, steps: seq<Step>) {
    && |states| == |steps| + 1 && states[0] == Opened()
    && forall i :: 0 <= i < |steps| ==> Enabled(states[i], steps[i]) && states[i + 1] == Apply(states[i], steps[i])
  }

  // ---------------------------------------------------------------- the tables agree

  /** The same row, but for the pod. */
  predicate SameRow(b: Bot, b': Bot) {
    b' == b.(podName := b'.podName, podReady := b'.podReady)
  }

  predicate InTable(bots: seq<Bot>, id: nat) {
    exists i :: 0 <= i < |bots| && bots[i].id == id
  }

  /** The rows inserted are the rows the pipeline works on. */
  ghost predicate SameBots(bots: seq<Bot>, table: map<nat, Bot>) {
    && (forall i :: 0 <= i < |bots| ==> bots[i].id in table && SameRow(bots[i], table[bots[i].id]))
    && (forall id :: id in table ==> InTable(bots, id))
  }

  ghost predicate KeysAllowed(pending: map<nat, V.Pending>) {
    forall r :: r in pending ==> pending[r].runtimeKey in RUNTIMES
  }

  ghost predicate AllRecorded(bots: seq<Bot>, ms: seq<MatchRow>) {
    forall k :: 0 <= k < |ms| ==> L.Recorded(bots, ms[k])
  }

  ghost predicate Agree(s: State) {
    && s.pipeline.runtimes == RUNTIMES && SameBots(s.versions.bots, s.pipeline.bots)
    && KeysAllowed(s.versions.pending) && AllRecorded(s.versions.bots, s.pipeline.matches)
  }

  lemma SubmitAgrees(s: State, request: nat, docstring: string)
    requires Agree(s)
    ensures Agree(Apply(s, Submit(request, docstring)))
  {
  }

  /** The row of an insert that succeeds is one the pipeline can take up. */
  lemma InsertedRow(s: State, request: nat) returns (b: Bot)
    requires Agree(s) && V.Invariant(s.versions)
    requires |V.Apply(s.versions, V.Insert(request)).bots| > |s.versions.bots|
    ensures V.Apply(s.versions, V.Insert(request)).bots == s.versions.bots + [b]
    ensures request in s.versions.pending
    ensures var p := s.versions.pending[request]; b == V.NewBot(s.versions.nextId, p.base, p.version, p.runtimeKey)
    ensures P.Enabled(s.pipeline, P.InsertBot(b))
  {
    var p := s.versions.pending[request];
    b := V.NewBot(s.versions.nextId, p.base, p.version, p.runtimeKey);
    assert !InTable(s.versions.bots, b.id);
  }

  lemma RecordedStays(bots: seq<Bot>, b: Bot, ms: seq<MatchRow>)
    requires AllRecorded(bots, ms)
    ensures AllRecorded(bots + [b], ms)
  {
    var after := bots + [b];
    forall k | 0 <= k < |ms|
      ensures L.Recorded(after, ms[k])
    {
      assert L.Recorded(bots, ms[k]);
      var i :| 0 <= i < |bots| && bots[i].id == ms[k].botX;
      var j :| 0 <= j < |bots| && bots[j].id == ms[k].botO;
      assert after[i].id == ms[k].botX && after[j].id == ms[k].botO;
    }
  }

  lemma SameBotsGrow(bots: seq<Bot>, table: map<nat, Bot>, b: Bot)
    requires SameBots(bots, table) && b.id !in table
    ensures SameBots(bots + [b], table[b.id := b])
  {
    var after := bots + [b];
    forall id | id in table[b.id := b]
      ensures InTable(after, id)
    {
      if id == b.id {
        assert after[|bots|].id == id;
      } else {
        assert InTable(bots, id);
        var i :| 0 <= i < |bots| && bots[i].id == id;
        assert after[i].id == id;
      }
    }
  }

  lemma InsertAgrees(s: State, request: nat)
    requires Agree(s) && V.Invariant(s.versions)
    ensures Agree(Apply(s, Insert(request)))
  {
    if |V.Apply(s.versions, V.Insert(request)).bots| > |s.versions.bots| {
      var b := InsertedRow(s, request);
      SameBotsGrow(s.versions.bots, s.pipeline.bots, b);
      RecordedStays(s.versions.bots, b, s.pipeline.matches);
    }
  }

  lemma HandlerKeepsRow(p: P.State, h: P.Step, id: nat)
    requires P.Enabled(p, h) && !h.InsertBot?
    ensures id in P.Apply(p, h).bots <==> id in p.bots
    ensures id in p.bots ==> SameRow(p.bots[id], P.Apply(p, h).bots[id])
  {
  }

  lemma HandlerKeepsBots(bots: seq<Bot>, p: P.State, h: P.Step)
    requires SameBots(bots, p.bots) && P.Enabled(p, h) && !h.InsertBot?
    ensures SameBots(bots, P.Apply(p, h).bots)
  {
    var after := P.Apply(p, h).bots;
    forall i | 0 <= i < |bots|
      ensures bots[i].id in after && SameRow(bots[i], after[bots[i].id])
    {
      HandlerKeepsRow(p, h, bots[i].id);
    }
    forall id | id in after
      ensures InTable(bots, id)
    {
      HandlerKeepsRow(p, h, id);
    }
  }

  lemma HandlerKeepsRuntimes(p: P.State, h: P.Step)
    requires P.Enabled(p, h)
    ensures P.Apply(p, h).runtimes == p.runtimes
    ensures !h.RecordMatch? ==> P.Apply(p, h).matches == p.matches
  {
  }

  lemma RowIsRecorded(bots: seq<Bot>, m: MatchRow)
    requires InTable(bots, m.botX) && InTable(bots, m.botO) && m.winner == WinnerOf(m.result, m.botX, m.botO)
    ensures L.Recorded(bots, m)
  {
  }

  /** A match that is played is one of two bots in the table. */
  lemma PlayedInTable(bots: seq<Bot>, p: P.State, pairing: P.Pairing)
    requires SameBots(bots, p.bots) && P.Invariant(p) && pairing in p.playing
    ensures InTable(bots, pairing.0) && InTable(bots, pairing.1)
  {
    assert P.IsKept(p, pairing);
    P.PublishedHavePods(p, pairing);
  }

  lemma HandlerRecords(bots: seq<Bot>, p: P.State, h: P.Step)
    requires SameBots(bots, p.bots) && AllRecorded(bots, p.matches) && P.Invariant(p) && P.Enabled(p, h)
    ensures AllRecorded(bots, P.Apply(p, h).matches)
  {
    HandlerKeepsRuntimes(p, h);
    if h.RecordMatch? {
      PlayedInTable(bots, p, h.pairing);
      var ms := P.Apply(p, h).matches;
      RowIsRecorded(bots, ms[|p.matches|]);
      assert ms == p.matches + [ms[|p.matches|]];
    }
  }

  lemma HandlerAgrees(s: State, h: P.Step)
    requires Agree(s) && P.Invariant(s.pipeline) && Enabled(s, Handle(h))
    ensures Agree(Apply(s, Handle(h)))
  {
    HandlerKeepsBots(s.versions.bots, s.pipeline, h);
    HandlerKeepsRuntimes(s.pipeline, h);
    HandlerRecords(s.versions.bots, s.pipeline, h);
  }

  // ---------------------------------------------------------------- runs of the parts

  /** The submissions alone, and the pipeline alone, have runs to their parts of `s`. */
  ghost predicate Projects(s: State, vs: seq<V.Step>, ps: seq<P.State>, hs: seq<P.Step>) {
    && V.Run(vs) == s.versions
    && P.IsRun(ps, hs) && ps[|hs|] == s.pipeline
    && Agree(s)
  }

  lemma OneMore(vs: seq<V.Step>, v: V.Step)
    ensures V.Run(vs + [v]) == V.Apply(V.Run(vs), v)
  {
    assert (vs + [v])[..|vs|] == vs;
  }

  lemma SubmitProjects(s: State, request: nat, docstring: string, vs: seq<V.Step>, ps: seq<P.State>, hs: seq<P.Step>)
      returns (vs': seq<V.Step>)
    requires Projects(s, vs, ps, hs)
    ensures Projects(Apply(s, Submit(request, docstring)), vs', ps, hs)
  {
    SubmitAgrees(s, request, docstring);
    vs' := vs;
    if RuntimeKey(docstring).Some? {
      var v := V.ReadVersion(request, BotName(docstring), RuntimeKey(docstring).value);
      OneMore(vs, v);
      vs' := vs + [v];
    }
  }

  lemma InsertProjects(s: State, request: nat, vs: seq<V.Step>, ps: seq<P.State>, hs: seq<P.Step>)
      returns (ps': seq<P.State>, hs': seq<P.Step>)
    requires Projects(s, vs, ps, hs)
    ensures Projects(Apply(s, Insert(request)), vs + [V.Insert(request)], ps', hs')
  {
    V.VersionsStayContiguous(vs);
    OneMore(vs, V.Insert(request));
    InsertAgrees(s, request);
    ps', hs' := ps, hs;
    if |V.Apply(s.versions, V.Insert(request)).bots| > |s.versions.bots| {
      var b := InsertedRow(s, request);
      ps', hs' := P.Go(ps, hs, P.InsertBot(b));
    }
  }

  lemma HandleProjects(s: State, h: P.Step, vs: seq<V.Step>, ps: seq<P.State>, hs: seq<P.Step>)
      returns (ps': seq<P.State>, hs': seq<P.Step>)
    requires Projects(s, vs, ps, hs) && Enabled(s, Handle(h))
    ensures Projects(Apply(s, Handle(h)), vs, ps', hs')
  {
    P.RunsKeepInvariant(ps, hs, |hs|);
    HandlerAgrees(s, h);
    ps', hs' := P.Go(ps, hs, h);
  }

  lemma StepProjects(s: State, step: Step, vs: seq<V.Step>, ps: seq<P.State>, hs: seq<P.Step>)
      returns (vs': seq<V.Step>, ps': seq<P.State>, hs': seq<P.Step>)
    requires Projects(s, vs, ps, hs) && Enabled(s, step)
    ensures Projects(Apply(s, step), vs', ps', hs')
  {
    vs', ps', hs' := vs, ps, hs;
    match step {
      case Submit(request, docstring) => vs' := SubmitProjects(s, request, docstring, vs, ps, hs);
      case Insert(request) =>
        vs' := vs + [V.Insert(request)];
        ps', hs' := InsertProjects(s, request, vs, ps, hs);
      case Handle(h) => ps', hs' := HandleProjects(s, h, vs, ps, hs);
    }
  }

  lemma StartProjects()
    ensures Projects(Opened(), [], [P.Start(RUNTIMES)], [])
  {
  }

  /** Every run of the platform is, part by part, a run of the submissions and one of the
      pipeline, so what those keep holds in it; and the two tables of bots agree. */
  lemma {:induction false} RunProjects(states: seq<State>, steps: seq<Step>, i: nat)
      returns (vs: seq<V.Step>, ps: seq<P.State>, hs: seq<P.Step>)
    requires IsRun(states, steps) && i < |states|
    ensures Projects(states[i], vs, ps, hs)
  {
    if i == 0 {
      StartProjects();
      vs, ps, hs := [], [P.Start(RUNTIMES)], [];
    } else {
      vs, ps, hs := RunProjects(states, steps, i - 1);
      vs, ps, hs := StepProjects(states[i - 1], steps[i - 1], vs, ps, hs);
    }
  }

  // ---------------------------------------------------------------- what the platform keeps

  /** In every reachable state ids and versioned names are unique, and every match row has
      the winner its result stands for and refers to bots in the table. */
  lemma TablesStayValid(states: seq<State>, steps: seq<Step>, i: nat)
    requires IsRun(states, steps) && i < |states|
    ensures var bots, ms := states[i].versions.bots, states[i].pipeline.matches;
      L.ValidTables(bots, ms) && L.UniqueNames(bots)
  {
    var vs, _, _ := RunProjects(states, steps, i);
    V.NamesStayUnique(vs);
  }

  /** No handler gives up a message: the runtimes of queued builds come from accepted
      docstrings and are on the allowlist, and queued pairings name bots with pods. */
  lemma NoJobIsDropped(states: seq<State>, steps: seq<Step>, i: nat)
    requires IsRun(states, steps) && i < |states|
    ensures var p := states[i].pipeline;
      && p.dropped == 0
      && (forall msg :: msg in p.buildQueue || msg in p.fetching ==> msg.bot in p.bots && msg.runtimeKey in RUNTIMES)
      && (forall pairing :: pairing in p.ondeckQueue || pairing in p.called ==> P.HasPod(p, pairing.0) && P.HasPod(p, pairing.1))
  {
    var _, ps, hs := RunProjects(states, steps, i);
    P.NoJobIsDropped(ps, hs, |hs|);
  }

  /** An insert whose version is still the next one adds a bot that the pipeline has not
      seen; any other leaves both tables as they are. */
  lemma InsertReachesThePipeline(states: seq<State>, steps: seq<Step>, i: nat, request: nat)
    requires IsRun(states, steps) && i < |states| && request in states[i].versions.pending
    ensures var s, s' := states[i], Apply(states[i], Insert(request)); var p := s.versions.pending[request];
      if p.version == V.MaxVersion(s.versions.bots, p.base) + 1 then
        s.versions.nextId !in s.pipeline.bots && s'.pipeline.bots.Keys == s.pipeline.bots.Keys + {s.versions.nextId}
      else s'.versions.bots == s.versions.bots && s'.pipeline == s.pipeline
  {
    var vs, _, _ := RunProjects(states, steps, i);
    V.VersionsStayContiguous(vs);
    V.InsertSucceedsIff(states[i].versions, request);
    if |V.Apply(states[i].versions, V.Insert(request)).bots| > |states[i].versions.bots| {
      var b := InsertedRow(states[i], request);
    }
  }

  /** The submission can be accepted: its docstring has a runtime and a name that is not
      reserved. */
  predicate Acceptable(docstring: string) {
    RuntimeKey(docstring).Some? && BotName(docstring).Some? && Accepted(BotName(docstring).value)
  }

  /** Only acceptable docstrings change anything. */
  lemma RefusedChangesNothing(s: State, request: nat, docstring: string)
    requires !Acceptable(docstring)
    ensures Apply(s, Submit(request, docstring)) == s
  {
  }

  /** The step is neither of this submission nor an insert of its family. */
  predicate LeavesAlone(s: State, step: Step, request: nat, name: string) {
    match step
    case Submit(other, _) => other != request
    case Insert(other) => V.LeavesAlone(s.versions, V.Insert(other), request, name)
    case Handle(_) => true
  }

  lemma ReachableVersions(states: seq<State>, steps: seq<Step>, i: nat, name: string)
    requires IsRun(states, steps) && i < |states|
    ensures V.Invariant(states[i].versions)
    ensures V.FamilySize(states[i].versions.bots, name) == V.MaxVersion(states[i].versions.bots, name)
  {
    var vs, _, _ := RunProjects(states, steps, i);
    V.VersionsStayContiguous(vs);
    V.SizeIsMaxVersion(vs, name);
  }

  lemma StepKeepsRead(s: State, step: Step, request: nat, name: string, key: string)
    requires Enabled(s, step) && V.Invariant(s.versions)
    requires V.HasRead(s.versions, request, name, key) && LeavesAlone(s, step, request, name)
    ensures V.HasRead(Apply(s, step).versions, request, name, key)
    ensures V.FamilySize(Apply(s, step).versions.bots, name) == V.FamilySize(s.versions.bots, name)
  {
    match step {
      case Submit(other, docstring) =>
        if RuntimeKey(docstring).Some? {
          V.OthersKeepRead(s.versions, V.ReadVersion(other, BotName(docstring), RuntimeKey(docstring).value), request, name, key);
        }
      case Insert(other) => V.OthersKeepRead(s.versions, V.Insert(other), request, name, key);
      case Handle(_) =>
    }
  }

  /** The docstring asks for this name and runtime, and may. */
  predicate Asks(docstring: string, name: string, key: string) {
    RuntimeKey(docstring) == Some(key) && BotName(docstring) == Some(name) && Accepted(name)
  }

  /** After step `j` and before step `i` no step is of this submission or an insert of its
      family. */
  ghost predicate Undisturbed(states: seq<State>, steps: seq<Step>, j: nat, i: nat, request: nat, name: string)
    requires i < |states| && i <= |steps|
  {
    forall k :: j < k < i ==> LeavesAlone(states[k], steps[k], request, name)
  }

  lemma SubmitReads(s: State, request: nat, docstring: string, name: string, key: string)
    requires Asks(docstring, name, key)
    ensures V.StillRead(s.versions, Apply(s, Submit(request, docstring)).versions, request, name, key)
  {
  }

  lemma RunKeepsRead(states: seq<State>, steps: seq<Step>, first: State, k: nat, request: nat, name: string, key: string)
    requires IsRun(states, steps) && k < |steps| && LeavesAlone(states[k], steps[k], request, name)
    requires V.StillRead(first.versions, states[k].versions, request, name, key)
    ensures V.StillRead(first.versions, states[k + 1].versions, request, name, key)
  {
    ReachableVersions(states, steps, k, name);
    StepKeepsRead(states[k], steps[k], request, name, key);
  }

  lemma {:induction false} ReadLasts(states: seq<State>, steps: seq<Step>, first: State, j: nat, i: nat, request: nat,
                                     name: string, key: string)
    requires IsRun(states, steps) && j < i < |states| && Undisturbed(states, steps, j, i, request, name)
    requires V.StillRead(first.versions, states[j + 1].versions, request, name, key)
    ensures V.StillRead(first.versions, states[i].versions, request, name, key)
    decreases i
  {
    if j + 1 < i {
      ReadLasts(states, steps, first, j, i - 1, request, name, key);
      RunKeepsRead(states, steps, first, i - 1, request, name, key);
    }
  }

  /** The row is new in both tables, and its build message is due. */
  ghost predicate AddsRow(s: State, s': State, row: Bot) {
    && s'.versions.bots == s.versions.bots + [row]
    && row.id !in s.pipeline.bots && s'.pipeline.bots == s.pipeline.bots[row.id := row]
    && s'.pipeline.inserted == P.Put(s.pipeline.inserted, row.id)
  }

  lemma InsertApplied(s: State, request: nat, row: Bot)
    requires V.Apply(s.versions, V.Insert(request)).bots == s.versions.bots + [row] && row.id !in s.pipeline.bots
    ensures AddsRow(s, Apply(s, Insert(request)), row)
  {
    assert (s.versions.bots + [row])[|s.versions.bots|] == row;
  }

  lemma InsertAddsRow(s: State, request: nat, name: string, key: string, size: nat) returns (row: Bot)
    requires Agree(s) && V.Invariant(s.versions) && V.HasRead(s.versions, request, name, key)
    requires size == V.MaxVersion(s.versions.bots, name)
    ensures V.IsNextRow(row, name, key, size) && AddsRow(s, Apply(s, Insert(request)), row)
  {
    V.InsertAdds(s.versions, request);
    row := InsertedRow(s, request);
    InsertApplied(s, request, row);
    V.NewBotIsNext(s.versions.nextId, name, key, size);
  }

  /** An acceptable docstring that is submitted and then inserted, without another insert of
      its family in between, adds exactly one row to both tables: the next of the family the
      docstring names, with the runtime it asks for, awaiting its build message. */
  lemma DocstringAddsARow(states: seq<State>, steps: seq<Step>, j: nat, i: nat, request: nat, docstring: string,
                          name: string, key: string)
      returns (row: Bot)
    requires IsRun(states, steps) && j < i < |steps| && Asks(docstring, name, key)
    requires steps[j] == Submit(request, docstring) && steps[i] == Insert(request)
    requires Undisturbed(states, steps, j, i, request, name)
    ensures V.IsNextRow(row, name, key, V.FamilySize(states[j].versions.bots, name))
    ensures AddsRow(states[i], states[i + 1], row)
  {
    SubmitReads(states[j], request, docstring, name, key);
    ReadLasts(states, steps, states[j], j, i, request, name, key);
    ReachableVersions(states, steps, i, name);
    var vs, ps, hs := RunProjects(states, steps, i);
    row := InsertAddsRow(states[i], request, name, key, V.FamilySize(states[j].versions.bots, name));
  }

  /** The family accounting law holds in every reachable state. */
  lemma AccountsBalance(states: seq<State>, steps: seq<Step>, i: nat, family: string)
    requires IsRun(states, steps) && i < |states|
    ensures var bots, ms := states[i].versions.bots, states[i].pipeline.matches;
      L.LifetimeWins(bots, ms, family) - L.LifetimeLosses(bots, ms, family)
        == L.Sum(bots, (b: Bot) =>
             if b.baseName == family then L.CleanWins(ms, b.id) + L.ForfeitWins(ms, b.id) - L.Losses(ms, b.id) else 0)
  {
    TablesStayValid(states, steps, i);
    L.FamilyAccounts(states[i].versions.bots, states[i].pipeline.matches, family);
  }

  /** So does the agreement of a version's statistics with its matches on the bot page. */
  lemma StatisticsAgree(states: seq<State>, steps: seq<Step>, i: nat, b: Bot)
    requires IsRun(states, steps) && i < |states| && b in states[i].versions.bots
    ensures var bots, ms := states[i].versions.bots, states[i].pipeline.matches;
      && L.ValidTables(bots, ms)
      && |Pages.Involving(Pages.ListForBot(bots, ms, b.baseName), b.versionedName)|
           == L.CleanWins(ms, b.id) + L.ForfeitWins(ms, b.id) + L.Draws(ms, b.id) + L.Losses(ms, b.id)
  {
    TablesStayValid(states, steps, i);
    Pages.GroupSizeIsStatistics(states[i].versions.bots, states[i].pipeline.matches, b);
  }

  /** And the conservation laws: over all versions, and over the leaderboard's rows. */
  lemma LeaderboardBalances(states: seq<State>, steps: seq<Step>, i: nat)
    requires IsRun(states, steps) && i < |states|
    ensures var bots, ms := states[i].versions.bots, states[i].pipeline.matches; var rows := V.BaseNames(V.LatestBots(bots, bots));
      && L.Sum(bots, (b: Bot) => L.Wins(ms, b.id)) == L.Sum(ms, (m: MatchRow) => L.One(L.Decisive(m)))
      && L.Sum(rows, (f: string) => L.LifetimeWins(bots, ms, f))
           == L.Sum(ms, (m: MatchRow) => L.One(L.Decisive(m) && (L.SelfMatch(m) || !L.SameFamily(bots, m))))
      && L.Sum(rows, (f: string) => L.LifetimeLosses(bots, ms, f))
           == L.Sum(ms, (m: MatchRow) => L.One(L.Decisive(m) && !L.SameFamily(bots, m)))
  {
    var vs, _, _ := RunProjects(states, steps, i);
    V.NamesStayUnique(vs);
    V.LeaderboardConserves(vs, states[i].pipeline.matches);
    L.VersionsConserve(states[i].versions.bots, states[i].pipeline.matches);
  }
}
