/** Every run of the pipeline can be brought to its end: no handler ever has to wait for a
    message that does not come. */
module Completion {
  import opened Boards
  import opened Engine
  import opened Pipeline
  import opened Scheduling
  import opened Store
  import Loop = MatchLoop

  /** The steps left until every published pairing is recorded. */
  function ToPlay(s: State): nat {
    3 * |s.ondeckQueue| + 2 * |s.called| + |s.playing|
  }

  lemma {:induction false} Listing(ids: set<nat>) returns (s: seq<nat>)
    ensures Distinct(s) && forall id: nat :: id in s <==> id in ids
  {
    if ids == {} {
      s := [];
    } else {
      var id :| id in ids;
      s := Listing(ids - {id});
      s := s + [id];
    }
  }

  lemma ReadyListing(s: State) returns (ready: seq<nat>)
    ensures ListsReady(s, ready)
  {
    ready := Listing(set id | id in s.bots && IsReady(s, id));
  }

  lemma MemberOf<T>(queue: multiset<T>) returns (x: T)
    requires |queue| > 0
    ensures x in queue
  {
    x :| x in queue;
  }

  /** Some handler can take a bot one step nearer to its read. */
  lemma NextTowardsRead(s: State) returns (step: Step)
    requires OneToken(s) && ToRead(s) > 0
    ensures Enabled(s, step) && !step.InsertBot?
    ensures step.EnqueueBuild? || step.TakeBuild? || step.StartBuild? || step.CommitReady? || step.PublishReady? ||
            step.TakeReady? || step.ReadReady?
  {
    if |s.inserted| > 0 {
      var id := MemberOf(s.inserted);
      WhereTokensAre(s, id);
      step := EnqueueBuild(id);
    } else if |s.buildQueue| > 0 {
      var msg := MemberOf(s.buildQueue);
      step := TakeBuild(msg);
    } else if |s.fetching| > 0 {
      var msg := MemberOf(s.fetching);
      step := StartBuild(msg);
    } else if |s.building| > 0 {
      var id := MemberOf(s.building);
      step := CommitReady(id);
    } else if |s.notifying| > 0 {
      var id := MemberOf(s.notifying);
      step := PublishReady(id);
    } else if |s.readyQueue| > 0 {
      var id := MemberOf(s.readyQueue);
      step := TakeReady(id);
    } else {
      var id := MemberOf(s.reading);
      var ready := ReadyListing(s);
      step := ReadReady(id, ready);
    }
  }

  lemma NearerToPod(s: State, step: Step)
    requires Enabled(s, step) && (step.EnqueueBuild? || step.TakeBuild? || step.StartBuild?)
    ensures ToRead(Apply(s, step)) < ToRead(s) && Apply(s, step).bots.Keys == s.bots.Keys
  {
  }

  lemma NearerToRead(s: State, step: Step)
    requires Enabled(s, step)
    requires step.EnqueueBuild? || step.TakeBuild? || step.StartBuild? || step.CommitReady? || step.PublishReady? ||
             step.TakeReady? || step.ReadReady?
    ensures ToRead(Apply(s, step)) < ToRead(s) && Apply(s, step).bots.Keys == s.bots.Keys
  {
    if step.EnqueueBuild? || step.TakeBuild? || step.StartBuild? {
      NearerToPod(s, step);
    }
  }

  lemma OneNearer(states: seq<State>, steps: seq<Step>) returns (states': seq<State>, steps': seq<Step>)
    requires IsRun(states, steps) && ToRead(states[|steps|]) > 0
    ensures IsRun(states', steps') && Continues(states, states')
    ensures states'[|steps'|].bots.Keys == states[|steps|].bots.Keys && ToRead(states'[|steps'|]) < ToRead(states[|steps|])
  {
    RunsKeepInvariant(states, steps, |steps|);
    var step := NextTowardsRead(states[|steps|]);
    NearerToRead(states[|steps|], step);
    states', steps' := Go(states, steps, step);
  }

  lemma CanRead(states: seq<State>, steps: seq<Step>) returns (states': seq<State>, steps': seq<Step>)
    requires IsRun(states, steps)
    ensures IsRun(states', steps') && Continues(states, states')
    ensures states'[|steps'|].bots.Keys == states[|steps|].bots.Keys && ToRead(states'[|steps'|]) == 0
    decreases ToRead(states[|steps|])
  {
    if ToRead(states[|steps|]) == 0 {
      states', steps' := states, steps;
    } else {
      var longer, further := OneNearer(states, steps);
      states', steps' := CanRead(longer, further);
    }
  }

  lemma AllRead(s: State)
    requires OneToken(s) && ToRead(s) == 0
    ensures s.seen.Keys == s.bots.Keys
  {
    forall id: nat
      ensures id in s.seen <==> id in s.bots
    {
      assert Tokens(s, id) == if id in s.bots then 1 else 0;
    }
  }

  lemma NextTowardsPlayed(s: State) returns (step: Step)
    requires ToPlay(s) > 0
    ensures Enabled(s, step) && (step.TakePairing? || step.StartMatch? || step.RecordMatch?)
  {
    if |s.ondeckQueue| > 0 {
      var p := MemberOf(s.ondeckQueue);
      step := TakePairing(p);
    } else if |s.called| > 0 {
      var p := MemberOf(s.called);
      step := StartMatch(p);
    } else {
      var p := MemberOf(s.playing);
      step := RecordMatch(p, Loop.MatchResult(Cat, []), "");
    }
  }

  lemma NearerToPlayed(s: State, step: Step)
    requires Enabled(s, step) && (step.TakePairing? || step.StartMatch? || step.RecordMatch?)
    ensures ToPlay(Apply(s, step)) < ToPlay(s)
  {
  }

  lemma PlayLeavesBots(s: State, step: Step)
    requires Enabled(s, step) && (step.TakePairing? || step.StartMatch? || step.RecordMatch?)
    ensures SameBotsAndReads(s, Apply(s, step))
  {
  }

  predicate SameBotsAndReads(s: State, s': State) {
    s'.bots == s.bots && s'.seen == s.seen && s'.scheduling == s.scheduling
  }

  lemma OnePlayed(states: seq<State>, steps: seq<Step>) returns (states': seq<State>, steps': seq<Step>)
    requires IsRun(states, steps) && ToPlay(states[|steps|]) > 0
    ensures IsRun(states', steps') && Continues(states, states')
    ensures ToPlay(states'[|steps'|]) < ToPlay(states[|steps|]) && SameBotsAndReads(states[|steps|], states'[|steps'|])
  {
    var step := NextTowardsPlayed(states[|steps|]);
    NearerToPlayed(states[|steps|], step);
    PlayLeavesBots(states[|steps|], step);
    states', steps' := Go(states, steps, step);
  }

  lemma CanPlay(states: seq<State>, steps: seq<Step>) returns (states': seq<State>, steps': seq<Step>)
    requires IsRun(states, steps)
    ensures IsRun(states', steps') && Continues(states, states')
    ensures ToPlay(states'[|steps'|]) == 0 && SameBotsAndReads(states[|steps|], states'[|steps'|])
    decreases ToPlay(states[|steps|])
  {
    if ToPlay(states[|steps|]) == 0 {
      states', steps' := states, steps;
    } else {
      var longer, further := OnePlayed(states, steps);
      states', steps' := CanPlay(longer, further);
    }
  }

  /** From every reachable state the handlers can, without new submissions, bring every bot
      to its read, publish all pairings and record all matches. */
  lemma EveryRunCanFinish(states: seq<State>, steps: seq<Step>) returns (states': seq<State>, steps': seq<Step>)
    requires IsRun(states, steps)
    ensures IsRun(states', steps') && Continues(states, states')
    ensures states'[|steps'|].bots.Keys == states[|steps|].bots.Keys
    ensures AllHandled(states'[|steps'|]) && ToPlay(states'[|steps'|]) == 0
  {
    var readStates, readSteps := CanRead(states, steps);
    RunsKeepInvariant(readStates, readSteps, |readSteps|);
    AllRead(readStates[|readSteps|]);
    var pubStates, pubSteps := CanPublish(readStates, readSteps);
    states', steps' := CanPlay(pubStates, pubSteps);
  }
}
