/** Which pairings the scheduler publishes: every ordered pair once, or twice when two
    ready messages overtake each other. */
module Scheduling {
  import opened Boards
  import opened Engine
  import opened Pipeline
  import opened Store

  /** Both reads have seen the other's bot. */
  ghost predicate Mutual(s: State, x: nat, y: nat) {
    x in s.seen && y in s.seen && y in s.seen[x] && x in s.seen[y]
  }

  /** Published and due together are what the reads call for. */
  lemma RunPublishes(states: seq<State>, steps: seq<Step>, i: nat, p: Pairing)
    requires IsRun(states, steps) && i < |states|
    ensures states[i].published[p] + Due(states[i].scheduling, p) == Expected(states[i].seen, p)
  {
    RunsKeepInvariant(states, steps, i);
    assert AsRead(states[i], p);
  }

  lemma RunSees(states: seq<State>, steps: seq<Step>, i: nat, x: nat, y: nat)
    requires IsRun(states, steps) && i < |states| && x in states[i].seen && y in states[i].seen
    ensures x in states[i].seen[x] && OneSeesTheOther(states[i], x, y)
  {
    RunsKeepInvariant(states, steps, i);
    assert SeesTheReady(states[i], x);
  }

  /** In any run, once the ready messages of two bots have been read and their pairing is
      no longer due, it has been published once or twice: twice exactly when both reads
      saw both bots. A bot's pairing with itself is published exactly once. */
  lemma PairScheduledOnceOrTwice(states: seq<State>, steps: seq<Step>, i: nat, x: nat, y: nat)
    requires IsRun(states, steps) && i < |states|
    requires x in states[i].seen && y in states[i].seen && Due(states[i].scheduling, (x, y)) == 0
    ensures states[i].published[(x, y)] == if x != y && Mutual(states[i], x, y) then 2 else 1
  {
    RunPublishes(states, steps, i, (x, y));
    RunSees(states, steps, i, x, y);
  }

  /** And at no time is anything but a pairing of ready bots published, or one more often. */
  lemma NeverMoreThanTwice(states: seq<State>, steps: seq<Step>, i: nat, p: Pairing)
    requires IsRun(states, steps) && i < |states|
    ensures states[i].published[p] <= (if p.0 == p.1 then 1 else 2)
    ensures p in states[i].published ==> IsReady(states[i], p.0) && IsReady(states[i], p.1)
  {
    RunsKeepInvariant(states, steps, i);
    assert AsRead(states[i], p);
  }

  /** Every inserted bot has been read by the scheduler and no handler has work left. */
  ghost predicate AllHandled(s: State) {
    s.seen.Keys == s.bots.Keys && forall p: Pairing :: Due(s.scheduling, p) == 0
  }

  function Row(x: nat, ids: set<nat>): set<Pairing> {
    set y | y in ids :: (x, y)
  }

  function Column(ids: set<nat>, y: nat): set<Pairing> {
    set x | x in ids :: (x, y)
  }

  function Square(ids: set<nat>): set<Pairing> {
    set x, y | x in ids && y in ids :: (x, y)
  }

  function Diagonal(ids: set<nat>): set<Pairing> {
    set x | x in ids :: (x, x)
  }

  lemma {:induction false} LineSizes(ids: set<nat>, x: nat)
    ensures |Row(x, ids)| == |ids| && |Column(ids, x)| == |ids|
  {
    if ids != {} {
      var z :| z in ids;
      LineSizes(ids - {z}, x);
      assert Row(x, ids) == Row(x, ids - {z}) + {(x, z)};
      assert Column(ids, x) == Column(ids - {z}, x) + {(z, x)};
    }
  }

  lemma SquareGrows(ids: set<nat>, x: nat)
    requires x !in ids
    ensures Square(ids + {x}) == Square(ids) + Row(x, ids) + Column(ids, x) + {(x, x)}
    ensures Square(ids) !! Row(x, ids) && Square(ids) + Row(x, ids) !! Column(ids, x)
    ensures (x, x) !in Square(ids) + Row(x, ids) + Column(ids, x)
  {
  }

  lemma PartsAddUp(inner: set<Pairing>, row: set<Pairing>, column: set<Pairing>, corner: Pairing)
    requires inner !! row && inner + row !! column && corner !in inner + row + column
    ensures |inner + row + column + {corner}| == |inner| + |row| + |column| + 1
  {
  }

  lemma NextSquare(n: nat)
    ensures n * n + n + n + 1 == (n + 1) * (n + 1)
  {
  }

  lemma SquareStep(rest: set<nat>, x: nat, n: nat)
    requires x !in rest && |rest| == n && |Square(rest)| == n * n
    ensures |rest + {x}| == n + 1 && |Square(rest + {x})| == (n + 1) * (n + 1)
  {
    SquareGrows(rest, x);
    LineSizes(rest, x);
    PartsAddUp(Square(rest), Row(x, rest), Column(rest, x), (x, x));
    NextSquare(n);
  }

  lemma {:induction false} SquareSize(ids: set<nat>, n: nat)
    requires |ids| == n
    ensures |Square(ids)| == n * n
  {
    if n > 0 {
      var x :| x in ids;
      var rest := ids - {x};
      assert rest + {x} == ids;
      SquareSize(rest, n - 1);
      SquareStep(rest, x, n - 1);
    } else {
      assert Square(ids) == {};
    }
  }

  lemma {:induction false} DiagonalSize(ids: set<nat>)
    ensures |Diagonal(ids)| == |ids|
  {
    if ids != {} {
      var x :| x in ids;
      DiagonalSize(ids - {x});
      assert Diagonal(ids) == Diagonal(ids - {x}) + {(x, x)};
    }
  }

  /** How often a pairing has been published once every bot is handled. */
  lemma PublishedWhenHandled(states: seq<State>, steps: seq<Step>, i: nat, p: Pairing)
    requires IsRun(states, steps) && i < |states| && AllHandled(states[i])
    ensures var s := states[i];
      s.published[p] == if p.0 !in s.bots || p.1 !in s.bots then 0 else if p.0 != p.1 && Mutual(s, p.0, p.1) then 2 else 1
  {
    var s := states[i];
    RunsKeepInvariant(states, steps, i);
    assert p == (p.0, p.1);
    if p.0 in s.bots && p.1 in s.bots {
      PairScheduledOnceOrTwice(states, steps, i, p.0, p.1);
    } else if p in s.published {
      NeverMoreThanTwice(states, steps, i, p);
    }
  }

  function OffDiagonal(ids: set<nat>): set<Pairing> {
    set x, y | x in ids && y in ids && x != y :: (x, y)
  }

  lemma OffDiagonalSize(ids: set<nat>)
    ensures |OffDiagonal(ids)| == |ids| * |ids| - |ids|
  {
    SquareSize(ids, |ids|);
    DiagonalSize(ids);
    assert Diagonal(ids) <= Square(ids) && OffDiagonal(ids) == Square(ids) - Diagonal(ids);
  }

  /** The ordered pairs of different bots whose reads saw both of them. */
  ghost function MutualPairs(s: State): set<Pairing> {
    set x, y | x in s.seen && y in s.seen && x != y && Mutual(s, x, y) :: (x, y)
  }

  lemma EqualCounts(published: multiset<Pairing>, square: set<Pairing>, again: set<Pairing>)
    requires forall p: Pairing :: published[p] == (if p in square then 1 else 0) + (if p in again then 1 else 0)
    ensures |published| == |square| + |again|
  {
    assert published == multiset(square) + multiset(again);
  }

  lemma {:induction false} SmallerSet(small: set<Pairing>, large: set<Pairing>)
    requires small <= large
    ensures |small| <= |large|
  {
    assert large == small + (large - small);
  }

  lemma CountWhenHandled(states: seq<State>, steps: seq<Step>, i: nat, p: Pairing)
    requires IsRun(states, steps) && i < |states| && AllHandled(states[i])
    ensures var s := states[i];
      s.published[p] == (if p in Square(s.bots.Keys) then 1 else 0) + (if p in MutualPairs(s) then 1 else 0)
  {
    PublishedWhenHandled(states, steps, i, p);
    assert p == (p.0, p.1);
  }

  /** With N bots all handled, N^2 messages have been published, and one more for each
      ordered pair of different bots whose reads saw both: at most 2N^2 - N in all. */
  lemma HowManyMatches(states: seq<State>, steps: seq<Step>, i: nat)
    requires IsRun(states, steps) && i < |states| && AllHandled(states[i])
    ensures var s, n := states[i], |states[i].bots|;
      && |s.published| == n * n + |MutualPairs(s)|
      && |MutualPairs(s)| <= n * n - n
  {
    var s, ids := states[i], states[i].bots.Keys;
    forall p: Pairing
      ensures s.published[p] == (if p in Square(ids) then 1 else 0) + (if p in MutualPairs(s) then 1 else 0)
    {
      CountWhenHandled(states, steps, i, p);
    }
    EqualCounts(s.published, Square(ids), MutualPairs(s));
    SquareSize(ids, |ids|);
    OffDiagonalSize(ids);
    SmallerSet(MutualPairs(s), OffDiagonal(ids));
  }

  /** Once everything is handled and no match is waiting or being played, any two bots have
      met in each order once, or twice if each read saw both; a bot meets itself once. */
  lemma EveryPairIsPlayed(states: seq<State>, steps: seq<Step>, i: nat, x: nat, y: nat)
    requires IsRun(states, steps) && i < |states| && AllHandled(states[i])
    requires x in states[i].bots && y in states[i].bots
    requires (x, y) !in states[i].ondeckQueue && (x, y) !in states[i].called && (x, y) !in states[i].playing
    ensures Played(states[i].matches, (x, y)) == if x != y && Mutual(states[i], x, y) then 2 else 1
  {
    NoJobIsDropped(states, steps, i);
    PublishedWhenHandled(states, steps, i, (x, y));
    assert IsKept(states[i], (x, y));
  }

  // ---------------------------------------------------------------- exactly once is not guaranteed

  /** A read sees another bot exactly if that bot is ready by then, and what it saw stays. */
  lemma ReadSeesTheReady(s: State, id: nat, ready: seq<nat>, other: nat)
    requires Enabled(s, ReadReady(id, ready))
    ensures var s' := Apply(s, ReadReady(id, ready)); id in s'.seen && (other in s'.seen[id] <==> IsReady(s, other))
  {
  }

  /** A new read sees what is ready, and an old one is kept. */
  lemma StepReads(s: State, step: Step, x: nat, y: nat)
    requires Enabled(s, step) && x in Apply(s, step).seen && (step.ReadReady? ==> step.id !in s.seen)
    ensures x in s.seen ==> Apply(s, step).seen[x] == s.seen[x]
    ensures x !in s.seen && IsReady(s, y) ==> y in Apply(s, step).seen[x]
  {
  }

  /** What a step does to the readiness of `y` and the read for `x`. */
  ghost predicate ReadStep(s: State, s': State, x: nat, y: nat) {
    && (IsReady(s, y) ==> IsReady(s', y))
    && (x in s.seen ==> x in s'.seen && s'.seen[x] == s.seen[x])
    && (x !in s.seen && x in s'.seen && IsReady(s, y) ==> y in s'.seen[x])
  }

  ghost predicate ReadSteps(states: seq<State>, x: nat, y: nat) {
    forall k {:trigger states[k]} :: 0 < k < |states| ==> ReadStep(states[k - 1], states[k], x, y)
  }

  lemma RunReads(states: seq<State>, steps: seq<Step>, x: nat, y: nat)
    requires IsRun(states, steps)
    ensures ReadSteps(states, x, y)
  {
    forall k | 0 < k < |states|
      ensures ReadStep(states[k - 1], states[k], x, y)
    {
      RunsKeepInvariant(states, steps, k - 1);
      if IsReady(states[k - 1], y) {
        ReadyStays(states[k - 1], steps[k - 1], y);
      }
      if steps[k - 1].ReadReady? {
        WhereTokensAre(states[k - 1], steps[k - 1].id);
      }
      if x in Apply(states[k - 1], steps[k - 1]).seen {
        StepReads(states[k - 1], steps[k - 1], x, y);
      }
    }
  }

  /** A read that happens once `y` is ready has seen `y`. */
  lemma {:induction false} UnreadReadSees(states: seq<State>, j: nat, i: nat, x: nat, y: nat)
    requires ReadSteps(states, x, y) && j <= i < |states|
    requires IsReady(states[j], y) && x !in states[j].seen
    ensures IsReady(states[i], y)
    ensures x in states[i].seen ==> y in states[i].seen[x]
  {
    if j < i {
      UnreadReadSees(states, j, i - 1, x, y);
      assert ReadStep(states[i - 1], states[i], x, y);
    }
  }

  /** When a pairing is published twice: exactly if each bot was ready by the time the other
      one's ready message was answered with a read. At least one of them was. */
  lemma TwiceExactly(states: seq<State>, steps: seq<Step>, i: nat, x: nat, y: nat, readX: nat, readY: nat)
    requires IsRun(states, steps) && i < |states| && readX < i && readY < i && x != y
    requires steps[readX].ReadReady? && steps[readX].id == x && steps[readY].ReadReady? && steps[readY].id == y
    requires Due(states[i].scheduling, (x, y)) == 0
    ensures var together := IsReady(states[readX], y) && IsReady(states[readY], x);
      states[i].published[(x, y)] == if together then 2 else 1
    ensures IsReady(states[readX], y) || IsReady(states[readY], x)
  {
    ReadIsKept(states, steps, readX, i, y);
    ReadIsKept(states, steps, readY, i, x);
    PairScheduledOnceOrTwice(states, steps, i, x, y);
    RunsKeepInvariant(states, steps, i);
    assert OneSeesTheOther(states[i], x, y);
  }

  lemma ReadIsKept(states: seq<State>, steps: seq<Step>, j: nat, i: nat, other: nat)
    requires IsRun(states, steps) && j < i < |states| && steps[j].ReadReady?
    ensures var x := steps[j].id; x in states[i].seen && (other in states[i].seen[x] <==> IsReady(states[j], other))
  {
    ReadSeesTheReady(states[j], steps[j].id, steps[j].ready, other);
    RunReads(states, steps, steps[j].id, steps[j].id);
    SeenStays(states, j + 1, i, steps[j].id);
  }

  /** Two bots that are both ready before either ready message is handled are scheduled
      twice. */
  lemma ReadyTogetherScheduledTwice(states: seq<State>, steps: seq<Step>, j: nat, i: nat, x: nat, y: nat)
    requires IsRun(states, steps) && j <= i < |states| && x != y
    requires IsReady(states[j], x) && IsReady(states[j], y) && x !in states[j].seen && y !in states[j].seen
    requires x in states[i].seen && y in states[i].seen && Due(states[i].scheduling, (x, y)) == 0
    ensures states[i].published[(x, y)] == 2
  {
    RunReads(states, steps, x, y);
    RunReads(states, steps, y, x);
    UnreadReadSees(states, j, i, x, y);
    UnreadReadSees(states, j, i, y, x);
    PairScheduledOnceOrTwice(states, steps, i, x, y);
  }

  /** A bot that becomes ready only after the other's message is handled meets it once. */
  lemma ReadyLaterScheduledOnce(states: seq<State>, steps: seq<Step>, j: nat, i: nat, x: nat, y: nat)
    requires IsRun(states, steps) && j <= i < |states| && x != y
    requires x in states[j].seen && !IsReady(states[j], y)
    requires y in states[i].seen && Due(states[i].scheduling, (x, y)) == 0
    ensures states[i].published[(x, y)] == 1
  {
    RunsKeepInvariant(states, steps, j);
    RunReads(states, steps, x, x);
    SeenStays(states, j, i, x);
    PairScheduledOnceOrTwice(states, steps, i, x, y);
  }

  lemma {:induction false} SeenStays(states: seq<State>, j: nat, i: nat, x: nat)
    requires ReadSteps(states, x, x) && j <= i < |states| && x in states[j].seen
    ensures x in states[i].seen && states[i].seen[x] == states[j].seen[x]
  {
    if j < i {
      SeenStays(states, j, i - 1, x);
      assert ReadStep(states[i - 1], states[i], x, x);
    }
  }

  /** From any reachable state a new bot can be taken to its ready message. */
  lemma CanBecomeReady(states: seq<State>, steps: seq<Step>, b: Bot) returns (states': seq<State>, steps': seq<Step>)
    requires IsRun(states, steps) && Enabled(states[|steps|], InsertBot(b))
    ensures IsRun(states', steps') && IsReady(states'[|steps'|], b.id)
    ensures var s, s' := states[|steps|], states'[|steps'|];
      s'.bots.Keys == s.bots.Keys + {b.id} && s'.runtimes == s.runtimes && s'.seen == s.seen &&
      s'.scheduling == s.scheduling && s'.readyQueue == Put(s.readyQueue, b.id) &&
      forall id :: IsReady(s, id) ==> IsReady(s', id)
  {
    states', steps' := Go(states, steps, InsertBot(b));
    states', steps' := Go(states', steps', EnqueueBuild(b.id));
    states', steps' := Go(states', steps', TakeBuild(BuildMessage(b.id, b.runtimeKey)));
    states', steps' := Go(states', steps', StartBuild(BuildMessage(b.id, b.runtimeKey)));
    states', steps' := Go(states', steps', CommitReady(b.id));
    states', steps' := Go(states', steps', PublishReady(b.id));
  }

  /** The steps left until every bot's ready message has been answered with a read. */
  function ToRead(s: State): nat {
    7 * |s.inserted| + 6 * |s.buildQueue| + 5 * |s.fetching| + 4 * |s.building| + 3 * |s.notifying| + 2 * |s.readyQueue| +
    |s.reading|
  }

  /** The messages that handlers still have to publish. */
  function Left(handlers: seq<Handler>): nat {
    if handlers == [] then 0 else Left(handlers[..|handlers| - 1]) + |handlers[|handlers| - 1].left|
  }

  lemma {:induction false} LeftReplaced(hs: seq<Handler>, k: nat, h: Handler)
    requires k < |hs|
    ensures Left(hs[k := h]) + |hs[k].left| == Left(hs) + |h.left|
  {
    var last, after := |hs| - 1, hs[k := h];
    if k < last {
      LeftReplaced(hs[..last], k, h);
      assert after[..last] == hs[..last][k := h];
    } else {
      assert after[..last] == hs[..last];
    }
  }

  lemma {:induction false} NothingDue(hs: seq<Handler>, p: Pairing)
    requires forall k :: 0 <= k < |hs| ==> hs[k].left == []
    ensures Due(hs, p) == 0
  {
    if hs != [] {
      NothingDue(hs[..|hs| - 1], p);
    }
  }

  /** Handlers can always publish the rest of their messages. */
  lemma CanPublish(states: seq<State>, steps: seq<Step>) returns (states': seq<State>, steps': seq<Step>)
    requires IsRun(states, steps)
    ensures IsRun(states', steps') && Continues(states, states')
    ensures states'[|steps'|].bots == states[|steps|].bots && states'[|steps'|].seen == states[|steps|].seen
    ensures forall p: Pairing :: Due(states'[|steps'|].scheduling, p) == 0
    ensures ToRead(states'[|steps'|]) == ToRead(states[|steps|])
    decreases Left(states[|steps|].scheduling)
  {
    var s := states[|steps|];
    if k :| 0 <= k < |s.scheduling| && s.scheduling[k].left != [] {
      LeftReplaced(s.scheduling, k, s.scheduling[k].(left := s.scheduling[k].left[1..]));
      states', steps' := Go(states, steps, PublishPairing(k));
      states', steps' := CanPublish(states', steps');
    } else {
      states', steps' := states, steps;
      forall p: Pairing
        ensures Due(s.scheduling, p) == 0
      {
        NothingDue(s.scheduling, p);
      }
    }
  }

  lemma TwoReadyBots() returns (states: seq<State>, steps: seq<Step>)
    ensures IsRun(states, steps)
    ensures var s := states[|steps|];
      s.bots.Keys == {1, 2} && IsReady(s, 1) && IsReady(s, 2) && s.seen == map[] && 1 in s.readyQueue && 2 in s.readyQueue
  {
    var first := Bot(1, "ada", "ada v1", 1, "python", None, false);
    var second := Bot(2, "bob", "bob v1", 1, "python", None, false);
    states, steps := [Start({"python"})], [];
    states, steps := CanBecomeReady(states, steps, first);
    states, steps := CanBecomeReady(states, steps, second);
  }

  /** So exactly one message for each pairing is not guaranteed: in this run of two bots
      every bot is handled and the pairing (1, 2) is published twice. */
  lemma ExactlyOnceFails() returns (states: seq<State>, steps: seq<Step>)
    ensures IsRun(states, steps) && AllHandled(states[|steps|])
    ensures states[|steps|].published[(1, 2)] == 2
  {
    states, steps := TwoReadyBots();
    states, steps := Go(states, steps, TakeReady(1));
    states, steps := Go(states, steps, TakeReady(2));
    assert ListsReady(states[|steps|], [1, 2]);
    states, steps := Go(states, steps, ReadReady(1, [1, 2]));
    assert ListsReady(states[|steps|], [1, 2]);
    states, steps := Go(states, steps, ReadReady(2, [1, 2]));
    states, steps := CanPublish(states, steps);
    PairScheduledOnceOrTwice(states, steps, |steps|, 1, 2);
  }
}
