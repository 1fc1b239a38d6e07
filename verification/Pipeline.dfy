/** The pipeline from an inserted bot to its recorded matches: the web handler, the pod
    builder, the scheduler and the match handler share only the tables and three queues,
    and every step of one interleaves with the steps of the others. */
module Pipeline {
  import opened Boards
  import opened Engine
  import opened Store
  import Loop = MatchLoop
  import Naming

  /** An ordered pairing: the bot that plays X, then the bot that plays O. */
  type Pairing = (nat, nat)

  // ---------------------------------------------------------------- publishing pairings

  /** The messages for two bots: one if they are the same, else one in each order. */
  function Both(id: nat, other: nat): seq<Pairing> {
    if other == id then [(id, id)] else [(id, other), (other, id)]
  }

  /** The messages published for bot `id` against `ready`, in order. */
  function Pairings(id: nat, ready: seq<nat>): seq<Pairing> {
    if ready == [] then []
    else
      var last := ready[|ready| - 1];
      Pairings(id, ready[..|ready| - 1]) + Both(id, last)
  }

  class OndeckQueue {
    var messages: seq<Pairing>

    constructor ()
      ensures messages == []
    {
      messages := [];
    }

    method EnqueueMatches(id: nat, ready: seq<nat>) returns (count: nat)
      modifies this
      ensures messages == old(messages) + Pairings(id, ready)
      ensures count == |Pairings(id, ready)|
    {
      count := 0;
      for i := 0 to |ready|
        invariant messages == old(messages) + Pairings(id, ready[..i])
        invariant count == |Pairings(id, ready[..i])|
      {
        var other := ready[i];
        assert ready[..i + 1][..i] == ready[..i];
        messages := messages + [(id, other)];
        count := count + 1;
        if other != id {
          messages := messages + [(other, id)];
          count := count + 1;
        }
      }
      assert ready[..|ready|] == ready;
    }
  }

  ghost predicate Distinct(s: seq<nat>) {
    forall i, j :: 0 <= i < j < |s| ==> s[i] != s[j]
  }

  /** How often the messages for `id` against distinct `ready` bots contain a pairing. */
  function Scheduled(id: nat, ready: seq<nat>, p: Pairing): nat {
    (if p.0 == id && p.1 in ready then 1 else 0) + (if p.1 == id && p.0 != id && p.0 in ready then 1 else 0)
  }

  lemma BothExact(id: nat, other: nat, p: Pairing)
    ensures multiset(Both(id, other))[p] == Scheduled(id, [other], p)
  {
    if other != id {
      assert multiset(Both(id, other)) == multiset{(id, other)} + multiset{(other, id)};
    }
    assert p == (p.0, p.1);
  }

  lemma PairingsGrow(id: nat, front: seq<nat>, last: nat, p: Pairing)
    ensures multiset(Pairings(id, front + [last]))[p] == multiset(Pairings(id, front))[p] + Scheduled(id, [last], p)
  {
    assert (front + [last])[..|front|] == front;
    assert multiset(Pairings(id, front) + Both(id, last)) == multiset(Pairings(id, front)) + multiset(Both(id, last));
    BothExact(id, last, p);
  }

  lemma ScheduledGrows(id: nat, front: seq<nat>, last: nat, p: Pairing)
    requires last !in front
    ensures Scheduled(id, front + [last], p) == Scheduled(id, front, p) + Scheduled(id, [last], p)
  {
  }

  lemma PairingsNext(id: nat, ready: seq<nat>, front: seq<nat>, last: nat, p: Pairing)
    requires ready == front + [last] && last !in front
    requires multiset(Pairings(id, front))[p] == Scheduled(id, front, p)
    ensures multiset(Pairings(id, ready))[p] == Scheduled(id, ready, p)
  {
    PairingsGrow(id, front, last, p);
    ScheduledGrows(id, front, last, p);
  }

  lemma LastApart(ready: seq<nat>)
    requires Distinct(ready) && ready != []
    ensures Distinct(ready[..|ready| - 1]) && ready[|ready| - 1] !in ready[..|ready| - 1]
    ensures ready == ready[..|ready| - 1] + [ready[|ready| - 1]]
  {
  }

  lemma NothingScheduled(id: nat, p: Pairing)
    ensures multiset(Pairings(id, []))[p] == Scheduled(id, [], p)
  {
  }

  /** Every pairing with a ready bot is published exactly once, and nothing else. */
  lemma {:induction false} PairingsExact(id: nat, ready: seq<nat>, p: Pairing)
    requires Distinct(ready)
    ensures multiset(Pairings(id, ready))[p] == Scheduled(id, ready, p)
  {
    if ready == [] {
      NothingScheduled(id, p);
    } else {
      LastApart(ready);
      PairingsExact(id, ready[..|ready| - 1], p);
      PairingsNext(id, ready, ready[..|ready| - 1], ready[|ready| - 1], p);
    }
  }

  lemma {:induction false} PairingsCount(id: nat, ready: seq<nat>)
    requires Distinct(ready)
    ensures |Pairings(id, ready)| == 2 * |ready| - (if id in ready then 1 else 0)
  {
    if ready != [] {
      var front, last := ready[..|ready| - 1], ready[|ready| - 1];
      PairingsCount(id, front);
      assert ready == front + [last] && last !in front;
    }
  }

  // ---------------------------------------------------------------- the system

  datatype BuildMessage = BuildMessage(bot: nat, runtimeKey: string)

  /** A scheduler handler that has read the ready bots and still has messages to publish. */
  datatype Handler = Handler(bot: nat, left: seq<Pairing>)

  /** `inserted` bots await their build message. `fetching`, `building` and `notifying` are
      pod-builder handlers before the look-up, before the ready commit and between it and
      the publish; `reading` are scheduler handlers that have received a ready message and
      not yet read; `called` are match handlers before the look-up. `seen` (what each read
      returned) and `published` are history, and `dropped` counts messages given up. */
  datatype State = State(
    runtimes: set<string>,
    bots: map<nat, Bot>,
    inserted: multiset<nat>,
    buildQueue: multiset<BuildMessage>,
    fetching: multiset<BuildMessage>,
    building: multiset<nat>,
    notifying: multiset<nat>,
    readyQueue: multiset<nat>,
    reading: multiset<nat>,
    scheduling: seq<Handler>,
    ondeckQueue: multiset<Pairing>,
    called: multiset<Pairing>,
    playing: multiset<Pairing>,
    matches: seq<MatchRow>,
    moves: seq<MoveRow>,
    seen: map<nat, seq<nat>>,
    published: multiset<Pairing>,
    dropped: nat)

  /** The empty system with an allowlist of runtimes. */
  function Start(runtimes: set<string>): State {
    State(runtimes, map[], multiset{}, multiset{}, multiset{}, multiset{}, multiset{}, multiset{}, multiset{}, [],
          multiset{}, multiset{}, multiset{}, [], [], map[], multiset{}, 0)
  }

  datatype Step =
    | InsertBot(bot: Bot)
    | EnqueueBuild(id: nat)
    | TakeBuild(msg: BuildMessage)
    | StartBuild(msg: BuildMessage)
    | CommitReady(id: nat)
    | PublishReady(id: nat)
    | TakeReady(id: nat)
    | ReadReady(id: nat, ready: seq<nat>)
    | PublishPairing(handler: nat)
    | FinishHandler(handler: nat)
    | TakePairing(pairing: Pairing)
    | StartMatch(pairing: Pairing)
    | RecordMatch(pairing: Pairing, result: Loop.MatchResult, correlationId: string)

  function PodName(id: nat): string {
    "bot-" + Naming.Decimal(id)
  }

  predicate IsReady(s: State, id: nat) {
    id in s.bots && s.bots[id].podReady
  }

  predicate HasPod(s: State, id: nat) {
    id in s.bots && s.bots[id].podName.Some?
  }

  /** What `ready_bots` may return: the ready bots in any order. */
  ghost predicate ListsReady(s: State, ready: seq<nat>) {
    Distinct(ready) && forall id :: id in ready <==> IsReady(s, id)
  }

  function Put<T(==)>(queue: multiset<T>, x: T): multiset<T> {
    queue[x := queue[x] + 1]
  }

  function Take<T(==)>(queue: multiset<T>, x: T): multiset<T>
    requires x in queue
  {
    queue[x := queue[x] - 1]
  }

  ghost predicate Enabled(s: State, step: Step) {
    match step
    case InsertBot(b) => b.id !in s.bots && b.runtimeKey in s.runtimes && !b.podReady && b.podName.None?
    case EnqueueBuild(id) => id in s.inserted && id in s.bots
    case TakeBuild(msg) => msg in s.buildQueue
    case StartBuild(msg) => msg in s.fetching
    case CommitReady(id) => id in s.building
    case PublishReady(id) => id in s.notifying
    case TakeReady(id) => id in s.readyQueue
    case ReadReady(id, ready) => id in s.reading && ListsReady(s, ready)
    case PublishPairing(h) => h < |s.scheduling| && s.scheduling[h].left != []
    case FinishHandler(h) => h < |s.scheduling| && s.scheduling[h].left == []
    case TakePairing(p) => p in s.ondeckQueue
    case StartMatch(p) => p in s.called
    case RecordMatch(p, _, _) => p in s.playing
  }

  /** The new row, whose build message is still to be sent. */
  function WithBot(s: State, b: Bot): State {
    s.(bots := s.bots[b.id := b], inserted := Put(s.inserted, b.id))
  }

  ghost function Apply(s: State, step: Step): State
    requires Enabled(s, step)
  {
    match step
    case InsertBot(b) => WithBot(s, b)
    case EnqueueBuild(id) =>
      s.(inserted := Take(s.inserted, id),
         buildQueue := Put(s.buildQueue, BuildMessage(id, s.bots[id].runtimeKey)))
    case TakeBuild(msg) =>
      s.(buildQueue := Take(s.buildQueue, msg), fetching := Put(s.fetching, msg))
    case StartBuild(msg) =>
      var taken := s.(fetching := Take(s.fetching, msg));
      if msg.runtimeKey !in s.runtimes || msg.bot !in s.bots then taken.(dropped := s.dropped + 1)
      else taken.(building := Put(s.building, msg.bot))
    case CommitReady(id) =>
      var done := s.(building := Take(s.building, id), notifying := Put(s.notifying, id));
      if id !in s.bots then done
      else done.(bots := s.bots[id := s.bots[id].(podReady := true, podName := Some(PodName(id)))])
    case PublishReady(id) =>
      s.(notifying := Take(s.notifying, id), readyQueue := Put(s.readyQueue, id))
    case TakeReady(id) =>
      s.(readyQueue := Take(s.readyQueue, id), reading := Put(s.reading, id))
    case ReadReady(id, ready) =>
      s.(reading := Take(s.reading, id), seen := s.seen[id := ready],
         scheduling := s.scheduling + [Handler(id, Pairings(id, ready))])
    case PublishPairing(h) =>
      var hd := s.scheduling[h];
      s.(scheduling := s.scheduling[h := hd.(left := hd.left[1..])],
         ondeckQueue := Put(s.ondeckQueue, hd.left[0]), published := Put(s.published, hd.left[0]))
    case FinishHandler(h) =>
      s.(scheduling := s.scheduling[..h] + s.scheduling[h + 1..])
    case TakePairing(p) =>
      s.(ondeckQueue := Take(s.ondeckQueue, p), called := Put(s.called, p))
    case StartMatch(p) =>
      var taken := s.(called := Take(s.called, p));
      if !HasPod(s, p.0) || !HasPod(s, p.1) then taken.(dropped := s.dropped + 1)
      else taken.(playing := Put(s.playing, p))
    case RecordMatch(p, result, correlationId) =>
      s.(playing := Take(s.playing, p),
         matches := s.matches + [RowOf(|s.matches| + 1, p.0, p.1, result, correlationId)],
         moves := s.moves + MoveRows(|s.matches| + 1, p.0, p.1, result.moves))
  }

  /** A run of the system from its empty start. */
  ghost predicate IsRun(states: seq<State>, steps: seq<Step>) {
    && |states| == |steps| + 1 && states[0] == Start(states[0].runtimes)
    && forall i :: 0 <= i < |steps| ==> Enabled(states[i], steps[i]) && states[i + 1] == Apply(states[i], steps[i])
  }

  // ---------------------------------------------------------------- what every run keeps

  /** How often scheduler handlers still have to publish a pairing. */
  function Due(handlers: seq<Handler>, p: Pairing): nat {
    if handlers == [] then 0
    else Due(handlers[..|handlers| - 1], p) + multiset(handlers[|handlers| - 1].left)[p]
  }

  function Key(s: State, id: nat): string {
    if id in s.bots then s.bots[id].runtimeKey else ""
  }

  /** In how many places bot `id` is on its way to the scheduler, or has been read. */
  function Tokens(s: State, id: nat): nat {
    s.inserted[id] + s.buildQueue[BuildMessage(id, Key(s, id))] + s.fetching[BuildMessage(id, Key(s, id))] +
    s.building[id] + s.notifying[id] + s.readyQueue[id] + s.reading[id] + (if id in s.seen then 1 else 0)
  }

  /** How often a pairing is due because of the ready bots each read has seen. */
  function Expected(seen: map<nat, seq<nat>>, p: Pairing): nat {
    (if p.0 in seen && p.1 in seen[p.0] then 1 else 0) +
    (if p.0 != p.1 && p.1 in seen && p.0 in seen[p.1] then 1 else 0)
  }

  /** How often a pairing has been recorded. */
  function Played(ms: seq<MatchRow>, p: Pairing): nat {
    if ms == [] then 0
    else Played(ms[..|ms| - 1], p) + (if (ms[|ms| - 1].botX, ms[|ms| - 1].botO) == p then 1 else 0)
  }

  /** Every bot is in exactly one place on its way. */
  ghost predicate OneToken(s: State) {
    && (forall id: nat :: Tokens(s, id) == if id in s.bots then 1 else 0)
    && MessagesFit(s) && RowsFit(s)
  }

  ghost predicate MessagesFit(s: State) {
    forall msg :: msg in s.buildQueue || msg in s.fetching ==> MessageFits(s, msg)
  }

  predicate MessageFits(s: State, msg: BuildMessage) {
    msg.bot in s.bots && msg.runtimeKey == s.bots[msg.bot].runtimeKey
  }

  ghost predicate RowsFit(s: State) {
    forall id :: id in s.bots ==> RowFits(s, id)
  }

  predicate RowFits(s: State, id: nat)
    requires id in s.bots
  {
    s.bots[id].runtimeKey in s.runtimes && s.bots[id].podName == if s.bots[id].podReady then Some(PodName(id)) else None
  }

  /** The ready message of a bot is due, exists or has been handled. */
  predicate Announced(s: State, id: nat) {
    id in s.notifying || id in s.readyQueue || id in s.reading || id in s.seen
  }

  /** Commit before publish: a bot is ready once its ready message can exist. */
  ghost predicate ReadyOnceAnnounced(s: State) {
    forall id :: Announced(s, id) ==> IsReady(s, id)
  }

  /** Receive before read: each read has seen its own bot, only ready bots, and of any two
      reads at least one has seen the other's bot. */
  ghost predicate ReadsSeeEachOther(s: State) {
    (forall i :: i in s.seen ==> SeesTheReady(s, i)) && (forall i, j :: i in s.seen && j in s.seen ==> OneSeesTheOther(s, i, j))
  }

  ghost predicate SeesTheReady(s: State, i: nat)
    requires i in s.seen
  {
    Distinct(s.seen[i]) && i in s.seen[i] && forall j :: j in s.seen[i] ==> IsReady(s, j)
  }

  ghost predicate OneSeesTheOther(s: State, i: nat, j: nat)
    requires i in s.seen && j in s.seen
  {
    j in s.seen[i] || i in s.seen[j]
  }

  predicate AsRead(s: State, p: Pairing) {
    s.published[p] + Due(s.scheduling, p) == Expected(s.seen, p)
  }

  /** Published messages and those still due are exactly what the reads call for. */
  ghost predicate PublishedAsRead(s: State) {
    forall p: Pairing :: AsRead(s, p)
  }

  ghost predicate IsKept(s: State, p: Pairing) {
    s.published[p] == s.ondeckQueue[p] + s.called[p] + s.playing[p] + Played(s.matches, p)
  }

  /** Nothing published is lost: it is queued, being played or recorded. */
  ghost predicate NothingLost(s: State) {
    s.dropped == 0 && forall p: Pairing :: IsKept(s, p)
  }

  ghost predicate Invariant(s: State) {
    OneToken(s) && ReadyOnceAnnounced(s) && ReadsSeeEachOther(s) && PublishedAsRead(s) && NothingLost(s)
  }

  lemma {:induction false} DueReplaced(hs: seq<Handler>, k: nat, h: Handler, p: Pairing)
    requires k < |hs|
    ensures Due(hs[k := h], p) + multiset(hs[k].left)[p] == Due(hs, p) + multiset(h.left)[p]
  {
    var last, after := |hs| - 1, hs[k := h];
    if k < last {
      DueReplaced(hs[..last], k, h, p);
      assert after[..last] == hs[..last][k := h];
    } else {
      assert after[..last] == hs[..last];
    }
  }

  lemma {:induction false} DueRemoved(hs: seq<Handler>, k: nat, p: Pairing)
    requires k < |hs|
    ensures Due(hs[..k] + hs[k + 1..], p) + multiset(hs[k].left)[p] == Due(hs, p)
  {
    var last := |hs| - 1;
    if k == last {
      assert hs[..k] + hs[k + 1..] == hs[..last];
    } else {
      var rest := hs[..k] + hs[k + 1..];
      DueRemoved(hs[..last], k, p);
      assert rest[..|rest| - 1] == hs[..last][..k] + hs[..last][k + 1..];
    }
  }

  lemma DueAdded(hs: seq<Handler>, h: Handler, p: Pairing)
    ensures Due(hs + [h], p) == Due(hs, p) + multiset(h.left)[p]
  {
    assert (hs + [h])[..|hs|] == hs;
  }

  lemma WhereTokensAre(s: State, id: nat)
    requires OneToken(s)
    ensures id in s.readyQueue || id in s.reading ==> id !in s.seen
    ensures id in s.building || id in s.inserted ==> id in s.bots
    ensures id !in s.bots ==> forall msg :: msg in s.buildQueue || msg in s.fetching ==> msg.bot != id
  {
    assert Tokens(s, id) == if id in s.bots then 1 else 0;
  }

  lemma KeepsTokensAtInsert(s: State, b: Bot, id: nat)
    requires Enabled(s, InsertBot(b)) && MessagesFit(s)
    requires Tokens(s, id) == if id in s.bots then 1 else 0
    ensures Tokens(WithBot(s, b), id) == if id in WithBot(s, b).bots then 1 else 0
  {
    var msg := BuildMessage(b.id, b.runtimeKey);
    assert !MessageFits(s, msg);
    assert msg !in s.buildQueue && msg !in s.fetching;
  }

  lemma KeepsTokensUntilBuilt(s: State, step: Step, id: nat)
    requires step.EnqueueBuild? || step.TakeBuild? || step.StartBuild?
    requires Enabled(s, step)
    requires Tokens(s, id) == if id in s.bots then 1 else 0
    requires step.TakeBuild? || step.StartBuild? ==> MessageFits(s, step.msg) && RowFits(s, step.msg.bot)
    ensures Tokens(Apply(s, step), id) == if id in Apply(s, step).bots then 1 else 0
  {
    if step.TakeBuild? || step.StartBuild? {
      assert step.msg == BuildMessage(step.msg.bot, Key(s, step.msg.bot));
    }
  }

  predicate IsMatchStep(step: Step) {
    step.PublishPairing? || step.FinishHandler? || step.TakePairing? || step.StartMatch? || step.RecordMatch?
  }

  /** Scheduling and playing pairings moves no bot. */
  predicate SameTokens(s: State, s': State) {
    && s'.bots == s.bots && s'.inserted == s.inserted && s'.buildQueue == s.buildQueue && s'.fetching == s.fetching
    && s'.building == s.building && s'.notifying == s.notifying && s'.readyQueue == s.readyQueue
    && s'.reading == s.reading && s'.seen == s.seen
  }

  lemma MatchStepsMoveNoBot(s: State, step: Step)
    requires Enabled(s, step) && IsMatchStep(step)
    ensures SameTokens(s, Apply(s, step))
  {
  }

  lemma KeepsTokensOnceBuilt(s: State, step: Step, id: nat)
    requires !step.InsertBot? && !step.EnqueueBuild? && !step.TakeBuild? && !step.StartBuild?
    requires Enabled(s, step)
    requires Tokens(s, id) == if id in s.bots then 1 else 0
    requires step.ReadReady? ==> step.id !in s.seen
    requires step.CommitReady? ==> step.id in s.bots
    ensures Tokens(Apply(s, step), id) == if id in Apply(s, step).bots then 1 else 0
  {
    if IsMatchStep(step) {
      MatchStepsMoveNoBot(s, step);
    } else {
      assert Key(Apply(s, step), id) == Key(s, id);
    }
  }

  lemma MessageStays(s: State, step: Step, msg: BuildMessage)
    requires Enabled(s, step) && (msg in Apply(s, step).buildQueue || msg in Apply(s, step).fetching)
    requires msg in s.buildQueue || msg in s.fetching ==> MessageFits(s, msg)
    ensures MessageFits(Apply(s, step), msg)
  {
  }

  lemma RowStays(s: State, step: Step, id: nat)
    requires Enabled(s, step) && id in Apply(s, step).bots && (id in s.bots ==> RowFits(s, id))
    ensures RowFits(Apply(s, step), id)
  {
  }

  lemma KeepsMessages(s: State, step: Step)
    requires MessagesFit(s) && Enabled(s, step)
    ensures MessagesFit(Apply(s, step))
  {
    forall msg | msg in Apply(s, step).buildQueue || msg in Apply(s, step).fetching
      ensures MessageFits(Apply(s, step), msg)
    {
      MessageStays(s, step, msg);
    }
  }

  lemma KeepsRows(s: State, step: Step)
    requires RowsFit(s) && Enabled(s, step)
    ensures RowsFit(Apply(s, step))
  {
    forall id | id in Apply(s, step).bots
      ensures RowFits(Apply(s, step), id)
    {
      RowStays(s, step, id);
    }
  }

  lemma KeepsToken(s: State, step: Step, id: nat)
    requires OneToken(s) && Enabled(s, step)
    requires step.ReadReady? ==> step.id !in s.seen
    requires step.CommitReady? ==> step.id in s.bots
    ensures Tokens(Apply(s, step), id) == if id in Apply(s, step).bots then 1 else 0
  {
    assert Tokens(s, id) == if id in s.bots then 1 else 0;
    if step.InsertBot? {
      KeepsTokensAtInsert(s, step.bot, id);
    } else if step.EnqueueBuild? || step.TakeBuild? || step.StartBuild? {
      KeepsTokensUntilBuilt(s, step, id);
    } else {
      KeepsTokensOnceBuilt(s, step, id);
    }
  }

  lemma KeepsOneToken(s: State, step: Step)
    requires OneToken(s) && Enabled(s, step)
    ensures OneToken(Apply(s, step))
  {
    if step.ReadReady? || step.CommitReady? {
      WhereTokensAre(s, step.id);
    }
    forall id: nat
      ensures Tokens(Apply(s, step), id) == if id in Apply(s, step).bots then 1 else 0
    {
      KeepsToken(s, step, id);
    }
    KeepsMessages(s, step);
    KeepsRows(s, step);
  }

  lemma StaysAnnounced(s: State, step: Step, id: nat)
    requires Enabled(s, step)
    requires Announced(s, id) ==> IsReady(s, id)
    requires step.CommitReady? ==> step.id in s.bots
    ensures Announced(Apply(s, step), id) ==> IsReady(Apply(s, step), id)
  {
    if IsReady(s, id) {
      ReadyStays(s, step, id);
    }
  }

  lemma KeepsReadyOnceAnnounced(s: State, step: Step)
    requires OneToken(s) && ReadyOnceAnnounced(s) && Enabled(s, step)
    ensures ReadyOnceAnnounced(Apply(s, step))
  {
    if step.CommitReady? {
      WhereTokensAre(s, step.id);
    }
    forall id: nat
      ensures Announced(Apply(s, step), id) ==> IsReady(Apply(s, step), id)
    {
      StaysAnnounced(s, step, id);
    }
  }

  /** No step takes readiness back. */
  lemma ReadyStays(s: State, step: Step, id: nat)
    requires Enabled(s, step) && IsReady(s, id)
    ensures IsReady(Apply(s, step), id)
  {
  }

  lemma KeepsSeesTheReady(s: State, step: Step, i: nat)
    requires Enabled(s, step) && i in Apply(s, step).seen
    requires i in s.seen ==> SeesTheReady(s, i) && (step.ReadReady? ==> step.id != i)
    requires i in s.reading ==> IsReady(s, i)
    ensures SeesTheReady(Apply(s, step), i)
  {
    var s' := Apply(s, step);
    forall j | j in s'.seen[i]
      ensures IsReady(s', j)
    {
      ReadyStays(s, step, j);
    }
  }

  lemma KeepsOneSeesTheOther(s: State, step: Step, i: nat, j: nat)
    requires Enabled(s, step) && i in Apply(s, step).seen && j in Apply(s, step).seen
    requires i in s.seen && j in s.seen ==> OneSeesTheOther(s, i, j)
    requires forall k :: Announced(s, k) ==> IsReady(s, k)
    requires step.ReadReady? ==> step.id !in s.seen
    ensures OneSeesTheOther(Apply(s, step), i, j)
  {
  }

  lemma KeepsReadsSeeEachOther(s: State, step: Step)
    requires OneToken(s) && ReadyOnceAnnounced(s) && ReadsSeeEachOther(s) && Enabled(s, step)
    ensures ReadsSeeEachOther(Apply(s, step))
  {
    var s' := Apply(s, step);
    if step.ReadReady? {
      WhereTokensAre(s, step.id);
    }
    forall i | i in s'.seen
      ensures SeesTheReady(s', i)
    {
      assert i in s.reading ==> Announced(s, i);
      KeepsSeesTheReady(s, step, i);
    }
    forall i, j | i in s'.seen && j in s'.seen
      ensures OneSeesTheOther(s', i, j)
    {
      KeepsOneSeesTheOther(s, step, i, j);
    }
  }

  lemma KeepsPublishedAsRead(s: State, step: Step)
    requires OneToken(s) && PublishedAsRead(s) && Enabled(s, step)
    ensures PublishedAsRead(Apply(s, step))
  {
    if step.ReadReady? {
      WhereTokensAre(s, step.id);
    }
    forall p: Pairing
      ensures AsRead(Apply(s, step), p)
    {
      assert AsRead(s, p);
      PairingStays(s, step, p);
    }
  }

  lemma PairingRead(s: State, id: nat, ready: seq<nat>, p: Pairing)
    requires Enabled(s, ReadReady(id, ready)) && id !in s.seen && AsRead(s, p)
    ensures AsRead(Apply(s, ReadReady(id, ready)), p)
  {
    DueAdded(s.scheduling, Handler(id, Pairings(id, ready)), p);
    PairingsExact(id, ready, p);
    ExpectedGrows(s.seen, id, ready, p);
  }

  lemma ExpectedGrows(seen: map<nat, seq<nat>>, id: nat, ready: seq<nat>, p: Pairing)
    requires id !in seen
    ensures Expected(seen[id := ready], p) == Expected(seen, p) + Scheduled(id, ready, p)
  {
  }

  lemma PairingPublished(s: State, h: nat, p: Pairing)
    requires Enabled(s, PublishPairing(h)) && AsRead(s, p)
    ensures AsRead(Apply(s, PublishPairing(h)), p)
  {
    var hd := s.scheduling[h];
    DueReplaced(s.scheduling, h, hd.(left := hd.left[1..]), p);
    assert hd.left == [hd.left[0]] + hd.left[1..];
  }

  lemma PairingFinished(s: State, h: nat, p: Pairing)
    requires Enabled(s, FinishHandler(h)) && AsRead(s, p)
    ensures AsRead(Apply(s, FinishHandler(h)), p)
  {
    DueRemoved(s.scheduling, h, p);
  }

  lemma OthersPublishNothing(s: State, step: Step)
    requires Enabled(s, step) && !step.ReadReady? && !step.PublishPairing? && !step.FinishHandler?
    ensures var s' := Apply(s, step); s'.published == s.published && s'.scheduling == s.scheduling && s'.seen == s.seen
  {
  }

  lemma PairingStays(s: State, step: Step, p: Pairing)
    requires Enabled(s, step) && AsRead(s, p)
    requires step.ReadReady? ==> step.id !in s.seen
    ensures AsRead(Apply(s, step), p)
  {
    if step.ReadReady? {
      PairingRead(s, step.id, step.ready, p);
    } else if step.PublishPairing? {
      PairingPublished(s, step.handler, p);
    } else if step.FinishHandler? {
      PairingFinished(s, step.handler, p);
    } else {
      OthersPublishNothing(s, step);
    }
  }

  lemma PublishedHavePods(s: State, p: Pairing)
    requires OneToken(s) && ReadyOnceAnnounced(s) && ReadsSeeEachOther(s) && PublishedAsRead(s) && p in s.published
    ensures HasPod(s, p.0) && HasPod(s, p.1)
  {
    assert AsRead(s, p) && Expected(s.seen, p) > 0;
  }

  /** No handler gives up a message. */
  lemma NothingDropped(s: State, step: Step)
    requires Invariant(s) && Enabled(s, step)
    ensures Apply(s, step).dropped == 0
    ensures step.StartMatch? ==> HasPod(s, step.pairing.0) && HasPod(s, step.pairing.1)
  {
    if step.StartMatch? {
      assert IsKept(s, step.pairing);
      PublishedHavePods(s, step.pairing);
    }
  }

  lemma PlayedGrows(ms: seq<MatchRow>, m: MatchRow, p: Pairing)
    ensures Played(ms + [m], p) == Played(ms, p) + if (m.botX, m.botO) == p then 1 else 0
  {
    assert (ms + [m])[..|ms|] == ms;
  }

  lemma MovedOn(playing: multiset<Pairing>, pairing: Pairing, p: Pairing)
    requires pairing in playing
    ensures Take(playing, pairing)[p] + (if (pairing.0, pairing.1) == p then 1 else 0) == playing[p]
  {
    assert pairing == (pairing.0, pairing.1);
  }

  lemma RecordedIsKept(s: State, step: Step, p: Pairing)
    requires Enabled(s, step) && step.RecordMatch? && IsKept(s, p)
    ensures IsKept(Apply(s, step), p)
  {
    PlayedGrows(s.matches, Apply(s, step).matches[|s.matches|], p);
    MovedOn(s.playing, step.pairing, p);
  }

  lemma PairingIsKept(s: State, step: Step, p: Pairing)
    requires Enabled(s, step) && IsKept(s, p)
    requires step.StartMatch? ==> HasPod(s, step.pairing.0) && HasPod(s, step.pairing.1)
    ensures IsKept(Apply(s, step), p)
  {
    if step.RecordMatch? {
      RecordedIsKept(s, step, p);
    }
  }

  lemma KeepsNothingLost(s: State, step: Step)
    requires Invariant(s) && Enabled(s, step)
    ensures NothingLost(Apply(s, step))
  {
    NothingDropped(s, step);
    forall p: Pairing
      ensures IsKept(Apply(s, step), p)
    {
      assert IsKept(s, p);
      PairingIsKept(s, step, p);
    }
  }

  lemma StepKeepsInvariant(s: State, step: Step)
    requires Invariant(s) && Enabled(s, step)
    ensures Invariant(Apply(s, step))
  {
    KeepsOneToken(s, step);
    KeepsReadyOnceAnnounced(s, step);
    KeepsReadsSeeEachOther(s, step);
    KeepsPublishedAsRead(s, step);
    KeepsNothingLost(s, step);
  }

  /** The invariant holds in every state of every run. */
  lemma {:induction false} RunsKeepInvariant(states: seq<State>, steps: seq<Step>, i: nat)
    requires IsRun(states, steps) && i < |states|
    ensures Invariant(states[i])
  {
    if i > 0 {
      RunsKeepInvariant(states, steps, i - 1);
      StepKeepsInvariant(states[i - 1], steps[i - 1]);
    }
  }

  /** A ready bot has a pod of its own. */
  lemma PodsAreApart(states: seq<State>, steps: seq<Step>, i: nat, x: nat, y: nat)
    requires IsRun(states, steps) && i < |states| && IsReady(states[i], x) && IsReady(states[i], y)
    ensures states[i].bots[x].podName == Some("bot-" + Naming.Decimal(x))
    ensures states[i].bots[x].podName == states[i].bots[y].podName <==> x == y
  {
    RunsKeepInvariant(states, steps, i);
    assert RowFits(states[i], x) && RowFits(states[i], y);
    Naming.ReadBack(x);
    Naming.ReadBack(y);
    assert PodName(x)[4..] == Naming.Decimal(x) && PodName(y)[4..] == Naming.Decimal(y);
  }

  /** No handler of any run drops a message: queued builds name known bots with allowed
      runtimes, queued pairings name bots with pods, and what was published is queued,
      being played or recorded. */
  lemma NoJobIsDropped(states: seq<State>, steps: seq<Step>, i: nat)
    requires IsRun(states, steps) && i < |states|
    ensures var s := states[i];
      && s.dropped == 0
      && (forall msg :: msg in s.buildQueue || msg in s.fetching ==> msg.bot in s.bots && msg.runtimeKey in s.runtimes)
      && (forall p :: p in s.ondeckQueue || p in s.called ==> HasPod(s, p.0) && HasPod(s, p.1))
      && (forall p: Pairing :: IsKept(s, p))
  {
    RunsKeepInvariant(states, steps, i);
    var s := states[i];
    forall msg | msg in s.buildQueue || msg in s.fetching
      ensures msg.bot in s.bots && msg.runtimeKey in s.runtimes
    {
      assert MessageFits(s, msg) && RowFits(s, msg.bot);
    }
    forall p | p in s.ondeckQueue || p in s.called
      ensures HasPod(s, p.0) && HasPod(s, p.1)
    {
      assert IsKept(s, p);
      PublishedHavePods(s, p);
    }
  }

  /** `states'` goes on where `states` ends. */
  predicate Continues(states: seq<State>, states': seq<State>) {
    states <= states'
  }

  /** The run goes on with one more enabled step. */
  lemma Go(states: seq<State>, steps: seq<Step>, step: Step) returns (states': seq<State>, steps': seq<Step>)
    requires IsRun(states, steps) && Enabled(states[|steps|], step)
    ensures IsRun(states', steps')
    ensures states' == states + [Apply(states[|steps|], step)] && steps' == steps + [step]
  {
    states', steps' := states + [Apply(states[|steps|], step)], steps + [step];
    forall i | 0 <= i < |steps'|
      ensures Enabled(states'[i], steps'[i]) && states'[i + 1] == Apply(states'[i], steps'[i])
    {
      assert states'[i] == states[i];
      assert i < |steps| ==> states'[i + 1] == states[i + 1] && steps'[i] == steps[i];
    }
  }
}
