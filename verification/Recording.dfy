/** What the pipeline has recorded: exactly the results its handlers reported, and for a
    refereed match the game that was played. */
module Recording {
  import opened Boards
  import opened Engine
  import opened Pipeline
  import opened Store
  import Loop = MatchLoop
  import Runner = MatchRunner

  /** The recordings among some steps, in order. */
  function Records(steps: seq<Step>): seq<Step> {
    if steps == [] then []
    else
      var last := steps[|steps| - 1];
      Records(steps[..|steps| - 1]) + if last.RecordMatch? then [last] else []
  }

  /** The row stands for the recorded pairing, result and correlation id. */
  predicate RowFor(m: MatchRow, step: Step) {
    && step.RecordMatch? && m.botX == step.pairing.0 && m.botO == step.pairing.1
    && m.result == step.result.result && m.winner == WinnerOf(step.result.result, m.botX, m.botO)
    && m.correlationId == step.correlationId
  }

  ghost predicate RowsFor(ms: seq<MatchRow>, rs: seq<Step>) {
    |ms| == |rs| && forall k :: 0 <= k < |ms| ==> ms[k].id == k + 1 && RowFor(ms[k], rs[k])
  }

  lemma StepAddsRow(s: State, step: Step, rs: seq<Step>)
    requires Enabled(s, step) && RowsFor(s.matches, rs)
    ensures RowsFor(Apply(s, step).matches, rs + if step.RecordMatch? then [step] else [])
  {
    assert rs + [] == rs;
  }

  /** In every run the match rows are exactly the recordings made so far, in order. */
  lemma {:induction false} RowsAreTheRecords(states: seq<State>, steps: seq<Step>, i: nat)
    requires IsRun(states, steps) && i < |states|
    ensures RowsFor(states[i].matches, Records(steps[..i]))
  {
    if i > 0 {
      RowsAreTheRecords(states, steps, i - 1);
      assert steps[..i][..i - 1] == steps[..i - 1];
      StepAddsRow(states[i - 1], steps[i - 1], Records(steps[..i - 1]));
    }
  }

  /** The move rows of some recordings, in order. */
  function MovesOf(rs: seq<Step>): seq<MoveRow>
    requires forall k :: 0 <= k < |rs| ==> rs[k].RecordMatch?
  {
    if rs == [] then []
    else
      var last := rs[|rs| - 1];
      MovesOf(rs[..|rs| - 1]) + MoveRows(|rs|, last.pairing.0, last.pairing.1, last.result.moves)
  }

  lemma {:induction false} RecordsAreRecords(steps: seq<Step>)
    ensures forall k :: 0 <= k < |Records(steps)| ==> Records(steps)[k].RecordMatch?
  {
    if steps != [] {
      RecordsAreRecords(steps[..|steps| - 1]);
    }
  }

  lemma MovesGrow(rs: seq<Step>, step: Step)
    requires step.RecordMatch? && forall k :: 0 <= k < |rs| ==> rs[k].RecordMatch?
    ensures MovesOf(rs + [step]) ==
      MovesOf(rs) + MoveRows(|rs| + 1, step.pairing.0, step.pairing.1, step.result.moves)
  {
    assert (rs + [step])[..|rs|] == rs;
  }

  lemma MovesAdded(s: State, step: Step)
    requires Enabled(s, step)
    ensures Apply(s, step).moves == if step.RecordMatch? then
              s.moves + MoveRows(|s.matches| + 1, step.pairing.0, step.pairing.1, step.result.moves)
            else s.moves
  {
  }

  lemma StepAddsMoves(s: State, step: Step, rs: seq<Step>)
    requires Enabled(s, step) && |s.matches| == |rs| && (forall k :: 0 <= k < |rs| ==> rs[k].RecordMatch?)
    requires s.moves == MovesOf(rs)
    ensures Apply(s, step).moves == MovesOf(rs + if step.RecordMatch? then [step] else [])
  {
    MovesAdded(s, step);
    if step.RecordMatch? {
      MovesGrow(rs, step);
    } else {
      assert rs + [] == rs;
    }
  }

  /** And the move rows are exactly those of the recordings. */
  lemma {:induction false} MovesAreTheRecords(states: seq<State>, steps: seq<Step>, i: nat)
    requires IsRun(states, steps) && i < |states|
    ensures forall k :: 0 <= k < |Records(steps[..i])| ==> Records(steps[..i])[k].RecordMatch?
    ensures states[i].moves == MovesOf(Records(steps[..i]))
  {
    RecordsAreRecords(steps[..i]);
    if i > 0 {
      MovesAreTheRecords(states, steps, i - 1);
      RowsAreTheRecords(states, steps, i - 1);
      assert steps[..i][..i - 1] == steps[..i - 1];
      StepAddsMoves(states[i - 1], steps[i - 1], Records(steps[..i - 1]));
    }
  }

  /** A recording of the match the referee has run between two pods stores its game. */
  lemma RecordedGame(states: seq<State>, steps: seq<Step>, j: nat, podX: Runner.Pod, podO: Runner.Pod)
      returns (boards: seq<Board>)
    requires IsRun(states, steps) && j < |steps| && steps[j].RecordMatch?
    requires Runner.MatchOf(Some(podX), Some(podO)) == Loop.Finished(steps[j].result)
    ensures var s, s' := states[j], states[j + 1];
      && |s'.matches| == |s.matches| + 1 && s.moves <= s'.moves
      && (var row := s'.matches[|s.matches|];
          && (row.botX, row.botO) == steps[j].pairing && row.correlationId == steps[j].correlationId
          && StoresGame(Runner.ArenaOf(podX, podO), boards, steps[j].result, row, s'.moves[|s.moves|..]))
  {
    var s, step := states[j], steps[j];
    boards := Runner.FinishedIsLegal(podX, podO);
    assert states[j + 1] == Apply(s, step);
    GameIsStored(Runner.ArenaOf(podX, podO), boards, step.result, |s.matches| + 1, step.pairing.0, step.pairing.1,
                 step.correlationId);
  }
}
