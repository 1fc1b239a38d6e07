/** The human-vs-bot page as a protocol: clicks, turn requests and their late answers. */
module PlayPages {
  import opened Boards
  import opened PyText
  import opened Engine
  import opened PlayState
  import BotClient
  import Loop = MatchLoop
  import Runner = MatchRunner

  // ---------------------------------------------------------------- the page

  datatype Request = Request(symbol: Player, board: string)

  /** What a turn request ends in: the bot's board text or a reason to end the game. */
  datatype Answer = Reply(text: string) | Failure(reason: string)

  /** How the page reads the server's response; an exception in the server is no 200. */
  function AnswerOf(r: BotClient.TurnResult): Answer {
    match r
    case NewBoard(text) => if text == "" then Failure("Bot returned an invalid move") else Reply(text)
    case BotForfeit(reason) => Failure(reason)
    case Escaped => Failure("Bot is unavailable")
  }

  /** The page's state and the turn requests not yet answered. */
  datatype Page = Page(state: PageState, waiting: seq<Request>)

  datatype Event = Click(index: nat) | Arrive(request: nat, answer: Answer)

  function BotSymbol(ctx: Context): Player {
    ctx.humanSymbol.Other()
  }

  /** The request a state calls for. */
  function Ask(ctx: Context, s: PageState): seq<Request> {
    if s.whose.Bot? && !s.ended then [Request(BotSymbol(ctx), GridText(s.board))] else []
  }

  function Opened(ctx: Context): Page {
    Page(InitialState(ctx), Ask(ctx, InitialState(ctx)))
  }

  function Clicked(ctx: Context, p: Page, index: nat): Page {
    match ApplyHumanMove(p.state, ctx, index)
    case None => p
    case Some(next) => if next == p.state then p else Page(next, p.waiting + Ask(ctx, next))
  }

  function StateAfter(ctx: Context, s: PageState, answer: Answer): PageState {
    match answer
    case Failure(reason) => ApplyForfeit(s, reason)
    case Reply(text) =>
      match ApplyBotMove(s, ctx, text)
      case Some(next) => next
      case None => ApplyForfeit(s, ctx.thrown)
  }

  function Answered(ctx: Context, p: Page, k: nat, answer: Answer): Page
    requires k < |p.waiting|
  {
    Page(StateAfter(ctx, p.state, answer), p.waiting[..k] + p.waiting[k + 1..])
  }

  class PlayPage {
    const ctx: Context
    var state: PageState
    var waiting: seq<Request>

    function View(): Page
      reads this
    {
      Page(state, waiting)
    }

    constructor (ctx: Context)
      ensures this.ctx == ctx && View() == Opened(ctx)
    {
      this.ctx := ctx;
      state := InitialState(ctx);
      waiting := [];
      new;
      if state.whose.Bot? && !state.ended {
        TakeBotTurn();
      }
    }

    /** Send the turn request; its answer comes as a later event. */
    method TakeBotTurn()
      modifies this`waiting
      ensures waiting == old(waiting) + [Request(BotSymbol(ctx), GridText(state.board))]
    {
      waiting := waiting + [Request(BotSymbol(ctx), GridText(state.board))];
    }

    method Click(index: nat)
      modifies this
      ensures View() == Clicked(ctx, old(View()), index)
    {
      var next := ApplyHumanMove(state, ctx, index);
      if next.None? || next.value == state {
        return;
      }
      state := next.value;
      if state.whose.Bot? && !state.ended {
        TakeBotTurn();
      }
    }

    /** The rest of the turn once its answer is there. */
    method Receive(k: nat, answer: Answer)
      requires k < |waiting|
      modifies this
      ensures View() == Answered(ctx, old(View()), k, answer)
    {
      waiting := waiting[..k] + waiting[k + 1..];
      if answer.Failure? {
        state := ApplyForfeit(state, answer.reason);
      } else {
        var next := ApplyBotMove(state, ctx, answer.text);
        state := if next.Some? then next.value else ApplyForfeit(state, ctx.thrown);
      }
    }
  }

  // ---------------------------------------------------------------- runs with any answers

  predicate Enabled(p: Page, e: Event) {
    match e
    case Click(index) => index < CELLS
    case Arrive(k, _) => k < |p.waiting|
  }

  function Next(ctx: Context, p: Page, e: Event): Page
    requires Enabled(p, e)
  {
    match e
    case Click(index) => Clicked(ctx, p, index)
    case Arrive(k, answer) => Answered(ctx, p, k, answer)
  }

  ghost predicate IsRun(ctx: Context, pages: seq<Page>, events: seq<Event>) {
    && |pages| == |events| + 1 && pages[0] == Opened(ctx)
    && forall i :: 0 <= i < |events| ==> Enabled(pages[i], events[i]) && pages[i + 1] == Next(ctx, pages[i], events[i])
  }

  /** The page waits for exactly the request its state calls for. */
  predicate InTurn(ctx: Context, p: Page) {
    p.waiting == Ask(ctx, p.state) && (p.state.ended <==> p.state.whose.Over?)
  }

  lemma StepStaysInTurn(ctx: Context, p: Page, e: Event)
    requires InTurn(ctx, p) && Enabled(p, e)
    ensures InTurn(ctx, Next(ctx, p, e))
  {
  }

  /** Whatever the bot answers, at most one request is under way, there is one exactly when
      it is the bot's turn, and it carries the board the page still shows. */
  lemma {:induction false} OneRequestAtATime(ctx: Context, pages: seq<Page>, events: seq<Event>, i: nat)
    requires IsRun(ctx, pages, events) && i < |pages|
    ensures InTurn(ctx, pages[i])
    ensures |pages[i].waiting| <= 1 && (pages[i].waiting != [] <==> pages[i].state.whose.Bot?)
    ensures forall r :: r in pages[i].waiting ==> r == Request(BotSymbol(ctx), GridText(pages[i].state.board))
  {
    if i > 0 {
      OneRequestAtATime(ctx, pages, events, i - 1);
      StepStaysInTurn(ctx, pages[i - 1], events[i - 1]);
    }
  }

  /** While a request is under way only its answer changes the page; once the game has
      ended nothing does. */
  lemma OnlyTheAnswerMoves(ctx: Context, pages: seq<Page>, events: seq<Event>, i: nat)
    requires IsRun(ctx, pages, events) && i < |events|
    ensures pages[i].waiting != [] && events[i].Click? ==> pages[i + 1] == pages[i]
    ensures pages[i].state.ended ==> events[i].Click? && pages[i + 1] == pages[i]
  {
    OneRequestAtATime(ctx, pages, events, i);
  }

  /** Ended games never reopen. */
  lemma {:induction false} EndedForGood(ctx: Context, pages: seq<Page>, events: seq<Event>, i: nat, j: nat)
    requires IsRun(ctx, pages, events) && i <= j < |pages| && pages[i].state.ended
    ensures pages[j] == pages[i]
  {
    if i < j {
      EndedForGood(ctx, pages, events, i, j - 1);
      OnlyTheAnswerMoves(ctx, pages, events, j - 1);
    }
  }

  // ---------------------------------------------------------------- runs with canonical answers

  /** A validated reply printed as the server prints boards, or a failure. */
  ghost predicate Canonical(r: Request, a: Answer) {
    a.Reply? ==> exists b: Board, b': Board :: |b| == CELLS && r.board == BoardText(b) && ReplyTo(b, b', r.symbol, a.text)
  }

  ghost predicate ReplyTo(b: Board, b': Board, symbol: Player, text: string) {
    LegalStep(b, b', symbol) && |b'| == CELLS && text == BoardText(b')
  }

  function Mover(ctx: Context, whose: Whose): Player {
    if whose.Bot? then BotSymbol(ctx) else ctx.humanSymbol
  }

  /** Who plays a symbol. */
  function NameOf(ctx: Context, p: Player): string {
    if p == ctx.humanSymbol then ctx.playerName else ctx.botName
  }

  /** The marks are as many as when `toMove` is to move in a game that X opens. */
  predicate Balanced(b: Board, toMove: Player) {
    Count(b, Mark(X)) == Count(b, Mark(O)) + if toMove == X then 0 else 1
  }

  function EndStatus(ctx: Context, r: Outcome): string {
    if r == WinOf(ctx.humanSymbol) then ctx.playerName + " wins"
    else if r == WinOf(BotSymbol(ctx)) then ctx.botName + " wins"
    else "Cat game"
  }

  /** The game on the page is over with the caption its board calls for. */
  predicate Closed(ctx: Context, s: PageState, b: Board) {
    CheckWinner(ctx.lines, b).Some? && s.status == EndStatus(ctx, CheckWinner(ctx.lines, b).value)
  }

  predicate Forfeited(s: PageState) {
    "Game over: " <= s.status
  }

  /** The page shows board `b`: undecided with the right side to move and its caption, or
      over. */
  predicate Shows(ctx: Context, s: PageState, b: Board) {
    && |b| == CELLS && s.board == GridOf(b)
    && (!s.whose.Over? ==>
          CheckWinner(ctx.lines, b).None? && Balanced(b, Mover(ctx, s.whose)) && s.status == NameOf(ctx, Mover(ctx, s.whose)) + "'s Turn")
    && (s.whose.Over? ==> (Balanced(b, X) || Balanced(b, O)) && (Closed(ctx, s, b) || Forfeited(s)))
  }

  lemma SettledShows(ctx: Context, b: Board, next: Whose)
    requires Fits(ctx.lines) && |b| == CELLS && !next.Over? && Balanced(b, Mover(ctx, next))
    ensures var r := Settled(ctx, GridOf(b), next);
      r.Some? && Shows(ctx, r.value, b) && (r.value.whose == next || (r.value.whose.Over? && Closed(ctx, r.value, b)))
  {
    BrowserVerdict(ctx.lines, b);
    assert ctx.humanSymbol == X || ctx.humanSymbol == O;
  }

  lemma BalanceMoves(b: Board, b': Board, p: Player)
    requires LegalStep(b, b', p) && Balanced(b, p)
    ensures Balanced(b', p.Other()) && |b'| == |b|
  {
    StepCounts(b, b', p);
  }

  /** On the human's turn a click marks the empty cell it is on; any other click does
      nothing. */
  lemma ClickExactly(ctx: Context, p: Page, index: nat, b: Board)
    requires Fits(ctx.lines) && InTurn(ctx, p) && Shows(ctx, p.state, b) && index < CELLS
    ensures var next := b[index := Mark(ctx.humanSymbol)];
      if p.state.whose.Human? && b[index] == Empty then
        && Shows(ctx, Clicked(ctx, p, index).state, next)
        && Settled(ctx, GridOf(next), Bot) == Some(Clicked(ctx, p, index).state)
      else Clicked(ctx, p, index) == p
  {
    CellTextOf(CellText(b[index]), b[index]);
    GridAfterMove(b, index, ctx.humanSymbol);
    if p.state.whose.Human? && b[index] == Empty {
      var next := b[index := Mark(ctx.humanSymbol)];
      assert LegalStep(b, next, ctx.humanSymbol);
      BalanceMoves(b, next, ctx.humanSymbol);
      SettledShows(ctx, next, Bot);
      assert next[index] != b[index];
      SameGrid(b, next);
    }
  }

  /** A click marks one empty cell for the human, or does nothing. */
  lemma ClickShows(ctx: Context, p: Page, index: nat, b: Board) returns (b': Board)
    requires Fits(ctx.lines) && InTurn(ctx, p) && Shows(ctx, p.state, b) && index < CELLS
    ensures Shows(ctx, Clicked(ctx, p, index).state, b')
    ensures (b' == b && Clicked(ctx, p, index) == p) || (p.state.whose.Human? && LegalStep(b, b', ctx.humanSymbol))
    ensures Clicked(ctx, p, index) == p || Settled(ctx, GridOf(b'), Bot) == Some(Clicked(ctx, p, index).state)
  {
    ClickExactly(ctx, p, index, b);
    b' := if p.state.whose.Human? && b[index] == Empty then b[index := Mark(ctx.humanSymbol)] else b;
  }

  lemma SameGrid(b: Board, b': Board)
    requires |b| == |b'| == CELLS
    ensures GridOf(b) == GridOf(b') <==> b == b'
  {
    if GridOf(b) == GridOf(b') {
      GridTextIsBoardText(b);
      GridTextIsBoardText(b');
      GridsDiffer(b, b');
    }
  }

  lemma GridsDiffer(b: Board, b': Board)
    requires |b| == |b'| == CELLS && BoardText(b) == BoardText(b')
    ensures b == b'
  {
    PrintThenParse(b);
    PrintThenParse(b');
  }

  /** A canonical answer marks one empty cell for the bot, or ends the game. */
  lemma AnswerShows(ctx: Context, p: Page, a: Answer, b: Board) returns (b': Board)
    requires Fits(ctx.lines) && InTurn(ctx, p) && Shows(ctx, p.state, b) && p.waiting != [] && Canonical(p.waiting[0], a)
    ensures Shows(ctx, StateAfter(ctx, p.state, a), b')
    ensures a.Reply? ==> ReplyTo(b, b', BotSymbol(ctx), a.text)
    ensures a.Reply? ==> Settled(ctx, GridOf(b'), Human) == Some(StateAfter(ctx, p.state, a))
    ensures a.Failure? ==> b' == b
  {
    b' := b;
    if a.Reply? {
      var before, after :| |before| == CELLS && p.waiting[0].board == BoardText(before) &&
        ReplyTo(before, after, p.waiting[0].symbol, a.text);
      GridTextIsBoardText(b);
      GridsDiffer(b, before);
      b' := after;
      BalanceMoves(b, b', BotSymbol(ctx));
      BrowserReadsExactly(a.text, b');
      SettledShows(ctx, b', Human);
    }
  }

  /** One step of a canonical run: the board stays or the side whose turn it is makes one
      legal move. */
  lemma StepShows(ctx: Context, p: Page, e: Event, b: Board) returns (b': Board)
    requires Fits(ctx.lines) && InTurn(ctx, p) && Shows(ctx, p.state, b) && Enabled(p, e)
    requires e.Arrive? ==> Canonical(p.waiting[e.request], e.answer)
    ensures Shows(ctx, Next(ctx, p, e).state, b')
    ensures b' == b || LegalStep(b, b', Mover(ctx, p.state.whose))
  {
    match e {
      case Click(index) => b' := ClickShows(ctx, p, index, b);
      case Arrive(k, answer) => b' := AnswerShows(ctx, p, answer, b);
    }
  }

  ghost predicate CanonicalRun(ctx: Context, pages: seq<Page>, events: seq<Event>) {
    && IsRun(ctx, pages, events) && Fits(ctx.lines)
    && forall i :: 0 <= i < |events| && events[i].Arrive? ==> Canonical(pages[i].waiting[events[i].request], events[i].answer)
  }

  lemma EmptyShows(ctx: Context, b: Board)
    requires Fits(ctx.lines) && |b| == CELLS && forall c :: 0 <= c < |b| ==> b[c] == Empty
    ensures CheckWinner(ctx.lines, b).None? && Balanced(b, X)
  {
    forall k, q: Player | 0 <= k < |ctx.lines|
      ensures !Owns(b, ctx.lines[k], q)
    {
      assert FitsLine(ctx.lines[k]);
      assert b[ctx.lines[k][0]] == Empty;
    }
    assert b[0] == Empty;
    assert Mark(X) !in b && Mark(O) !in b;
  }

  lemma OpenedShows(ctx: Context)
    requires Fits(ctx.lines)
    ensures Shows(ctx, InitialState(ctx), EMPTY_BOARD)
  {
    EmptyShows(ctx, EMPTY_BOARD);
  }

  lemma RunStepShows(ctx: Context, pages: seq<Page>, events: seq<Event>, i: nat, b: Board) returns (b': Board)
    requires CanonicalRun(ctx, pages, events) && i < |events| && Shows(ctx, pages[i].state, b)
    ensures Shows(ctx, pages[i + 1].state, b')
    ensures b' == b || LegalStep(b, b', Mover(ctx, pages[i].state.whose))
  {
    OneRequestAtATime(ctx, pages, events, i);
    b' := StepShows(ctx, pages[i], events[i], b);
  }

  /** Each board is shown, and is the one before or one legal move after it. */
  ghost predicate Follows(ctx: Context, pages: seq<Page>, boards: seq<Board>) {
    && 0 < |boards| <= |pages|
    && (forall i :: 0 <= i < |boards| ==> Shows(ctx, pages[i].state, boards[i]))
    && (forall i :: 0 <= i < |boards| - 1 ==>
          boards[i + 1] == boards[i] || LegalStep(boards[i], boards[i + 1], Mover(ctx, pages[i].state.whose)))
  }

  lemma FollowsOn(ctx: Context, pages: seq<Page>, boards: seq<Board>, n: nat, b: Board)
    requires Follows(ctx, pages, boards) && |boards| == n + 1 < |pages| && Shows(ctx, pages[n + 1].state, b)
    requires b == boards[n] || LegalStep(boards[n], b, Mover(ctx, pages[n].state.whose))
    ensures Follows(ctx, pages, boards + [b])
  {
    var next := boards + [b];
    forall i | 0 <= i < |next|
      ensures Shows(ctx, pages[i].state, next[i])
    {
      assert i < |boards| ==> next[i] == boards[i];
    }
    forall i | 0 <= i < |next| - 1
      ensures next[i + 1] == next[i] || LegalStep(next[i], next[i + 1], Mover(ctx, pages[i].state.whose))
    {
      assert next[i] == boards[i];
      assert i < n ==> next[i + 1] == boards[i + 1];
    }
  }

  lemma {:induction false} GameFrom(ctx: Context, pages: seq<Page>, events: seq<Event>, n: nat, start: Board)
      returns (boards: seq<Board>)
    requires CanonicalRun(ctx, pages, events) && n < |pages| && Shows(ctx, pages[0].state, start)
    ensures |boards| == n + 1 && boards[0] == start && Follows(ctx, pages, boards)
  {
    if n == 0 {
      boards := [start];
    } else {
      boards := GameFrom(ctx, pages, events, n - 1, start);
      var b := RunStepShows(ctx, pages, events, n - 1, boards[n - 1]);
      FollowsOn(ctx, pages, boards, n - 1, b);
      boards := boards + [b];
    }
  }

  /** The boards of a canonical run: from the empty board, each equal to the one before or
      one legal move of the side whose turn it is, and each what the page shows. */
  lemma CanonicalGame(ctx: Context, pages: seq<Page>, events: seq<Event>) returns (boards: seq<Board>)
    requires CanonicalRun(ctx, pages, events)
    ensures |boards| == |pages| && boards[0] == EMPTY_BOARD && Follows(ctx, pages, boards)
    ensures forall i :: 0 <= i < |pages| ==> Shows(ctx, pages[i].state, boards[i])
    ensures forall i :: 0 <= i < |events| ==>
              boards[i + 1] == boards[i] || LegalStep(boards[i], boards[i + 1], Mover(ctx, pages[i].state.whose))
  {
    OpenedShows(ctx);
    boards := GameFrom(ctx, pages, events, |events|, EMPTY_BOARD);
  }

  /** In a canonical run a click on the human's turn marks exactly the empty cell that was
      clicked, in row-major order, and any other click changes nothing. */
  lemma ClickMarksTheCell(ctx: Context, pages: seq<Page>, events: seq<Event>, boards: seq<Board>, i: nat)
    requires CanonicalRun(ctx, pages, events) && Follows(ctx, pages, boards) && |boards| == |pages|
    requires i < |events| && events[i].Click?
    ensures var index, b := events[i].index, boards[i];
      && |b| == CELLS && index < CELLS
      && if pages[i].state.whose.Human? && b[index] == Empty then boards[i + 1] == b[index := Mark(ctx.humanSymbol)]
         else pages[i + 1] == pages[i] && boards[i + 1] == b
  {
    var index, b := events[i].index, boards[i];
    OneRequestAtATime(ctx, pages, events, i);
    assert Shows(ctx, pages[i].state, b) && Shows(ctx, pages[i + 1].state, boards[i + 1]);
    ClickExactly(ctx, pages[i], index, b);
    SameGrid(boards[i + 1], b);
    SameGrid(boards[i + 1], b[index := Mark(ctx.humanSymbol)]);
  }

  /** Why a turn failed. */
  function FailureReason(answer: BotClient.HttpAnswer): string {
    if answer.TimedOut? then "Bot took too long"
    else if answer.Unreachable? || answer.Unexpected? then "Bot is unavailable"
    else "Bot returned an invalid move"
  }

  lemma FailureShown(answer: BotClient.HttpAnswer, r: BotClient.TurnResult)
    requires BotClient.Refuses(answer, r)
    ensures AnswerOf(r) == Failure(FailureReason(answer))
  {
  }

  lemma FailureEnds(ctx: Context, p: Page, k: nat, reason: string)
    requires k < |p.waiting|
    ensures var s' := Answered(ctx, p, k, Failure(reason)).state;
      s'.ended && s'.whose.Over? && s'.board == p.state.board && s'.status == "Game over: " + reason
  {
  }

  /** A turn that the server does not grant ends the game, with the board as it was and the
      reason in the caption. */
  lemma FailedTurn(ctx: Context, pages: seq<Page>, events: seq<Event>, i: nat, answer: BotClient.HttpAnswer)
    requires IsRun(ctx, pages, events) && i < |events| && events[i].Arrive?
    requires var r := pages[i].waiting[events[i].request]; var result := BotClient.RequestBotTurn(answer, r.symbol, r.board);
      !result.NewBoard? && events[i].answer == AnswerOf(result)
    ensures var s, s' := pages[i].state, pages[i + 1].state;
      s'.ended && s'.whose.Over? && s'.board == s.board && s'.status == "Game over: " + FailureReason(answer)
  {
    var r := pages[i].waiting[events[i].request];
    BotClient.GrantedOrRefused(answer, r.symbol, r.board);
    FailureShown(answer, BotClient.RequestBotTurn(answer, r.symbol, r.board));
    FailureEnds(ctx, pages[i], events[i].request, events[i].answer.reason);
  }

  /** What a request means to the server: in a canonical run its text reads as an undecided
      board, which the page shows, and its symbol is the side to move there. */
  lemma RequestReadsBack(ctx: Context, pages: seq<Page>, events: seq<Event>, i: nat) returns (b: Board)
    requires CanonicalRun(ctx, pages, events) && i < |pages| && pages[i].waiting != []
    ensures |b| == CELLS && pages[i].state.board == GridOf(b)
    ensures Parsed(pages[i].waiting[0].board) == Some(b)
    ensures CheckWinner(ctx.lines, b).None? && Balanced(b, pages[i].waiting[0].symbol)
  {
    var boards := CanonicalGame(ctx, pages, events);
    b := boards[i];
    OneRequestAtATime(ctx, pages, events, i);
    assert Shows(ctx, pages[i].state, b);
    assert pages[i].waiting[0] in pages[i].waiting;
    GridTextIsBoardText(b);
    PrintThenParse(b);
  }

  /** Marks are never erased from the page. */
  lemma MarksStay(ctx: Context, pages: seq<Page>, events: seq<Event>, i: nat, j: nat, r: nat, c: nat)
    requires CanonicalRun(ctx, pages, events) && i <= j < |pages|
    requires r < |pages[i].state.board| && c < |pages[i].state.board[r]| && pages[i].state.board[r][c] != "."
    ensures r < |pages[j].state.board| && c < |pages[j].state.board[r]|
    ensures pages[j].state.board[r][c] == pages[i].state.board[r][c]
  {
    var boards := CanonicalGame(ctx, pages, events);
    assert Shows(ctx, pages[i].state, boards[i]) && Shows(ctx, pages[j].state, boards[j]);
    MarkedPlace(boards[i], r, c);
    MarkStays(ctx, pages, events, boards, i, j, 3 * r + c);
    SamePlace(boards[i], boards[j], r, c);
  }

  lemma MarkedPlace(b: Board, r: nat, c: nat)
    requires |b| == CELLS && r < |GridOf(b)| && c < |GridOf(b)[r]| && GridOf(b)[r][c] != "."
    ensures r < 3 && c < 3 && b[3 * r + c] != Empty
  {
    CellOfGrid(b, 3 * r + c);
  }

  lemma SamePlace(b: Board, b': Board, r: nat, c: nat)
    requires |b| == |b'| == CELLS && r < 3 && c < 3 && b[3 * r + c] == b'[3 * r + c]
    ensures c < |GridOf(b)[r]| && c < |GridOf(b')[r]| && GridOf(b)[r][c] == GridOf(b')[r][c]
  {
    CellOfGrid(b, 3 * r + c);
    CellOfGrid(b', 3 * r + c);
  }

  lemma {:induction false} MarkStays(ctx: Context, pages: seq<Page>, events: seq<Event>, boards: seq<Board>,
                                     i: nat, j: nat, pos: nat)
    requires |boards| == |pages| == |events| + 1 && i <= j < |boards| && pos < |boards[i]| && boards[i][pos] != Empty
    requires forall k :: 0 <= k < |events| ==>
               boards[k + 1] == boards[k] || LegalStep(boards[k], boards[k + 1], Mover(ctx, pages[k].state.whose))
    ensures pos < |boards[j]| && boards[j][pos] == boards[i][pos]
  {
    if i < j {
      MarkStays(ctx, pages, events, boards, i, j - 1, pos);
      assert boards[j - 1 + 1] == boards[j];
    }
  }

  /** Every board text of a refereed match is one the browser reads rightly. */
  lemma BrowserReadsRecorded(podX: Runner.Pod, podO: Runner.Pod, boards: seq<Board>, m: Loop.MatchResult, i: nat)
    requires Loop.LegalGame(Runner.ArenaOf(podX, podO), boards, 0, m) && i < |m.moves|
    ensures |boards[i + 1]| == CELLS && ParseGrid(m.moves[i].board) == GridOf(boards[i + 1])
  {
    assert Loop.RecordedMove(Runner.ArenaOf(podX, podO), m.moves[i], i + 1, boards[i], boards[i + 1]);
    BrowserReadsExactly(m.moves[i].board, boards[i + 1]);
  }

  // ---------------------------------------------------------------- what the server lets through

  /** For a board the page sent, the server's response is canonical exactly when the pod's
      granted text, if any, is a printed board. */
  lemma CanonicalExactly(b: Board, symbol: Player, answer: BotClient.HttpAnswer)
    requires |b| == CELLS
    ensures var request, result := Request(symbol, BoardText(b)), BotClient.RequestBotTurn(answer, symbol, BoardText(b));
      Canonical(request, AnswerOf(result)) <==>
        (result.NewBoard? ==> exists b': Board :: |b'| == CELLS && result.text == BoardText(b'))
  {
    var request, result := Request(symbol, BoardText(b)), BotClient.RequestBotTurn(answer, symbol, BoardText(b));
    PrintThenParse(b);
    ParseExact(BoardText(b), b);
    if result.NewBoard? {
      BotClient.GrantedIffLegal(answer, symbol, BoardText(b), result.text);
      GrantedIsCanonical(b, symbol, result.text);
    }
  }

  lemma PrintedIsCanonical(b: Board, symbol: Player, text: string, b': Board)
    requires |b| == CELLS && LegalStep(b, b', symbol) && |b'| == CELLS && text == BoardText(b')
    ensures Canonical(Request(symbol, BoardText(b)), Reply(text))
  {
    assert ReplyTo(b, b', symbol, text);
  }

  lemma CanonicalIsPrinted(r: Request, text: string) returns (b': Board)
    requires Canonical(r, Reply(text))
    ensures |b'| == CELLS && text == BoardText(b')
  {
    var b, next :| |b| == CELLS && r.board == BoardText(b) && ReplyTo(b, next, r.symbol, text);
    b' := next;
  }

  lemma GrantedIsCanonical(b: Board, symbol: Player, text: string)
    requires |b| == CELLS && BotClient.WritesMove(BoardText(b), text, symbol)
    ensures text != ""
    ensures Canonical(Request(symbol, BoardText(b)), Reply(text)) <==> exists b': Board :: |b'| == CELLS && text == BoardText(b')
  {
    PrintThenParse(b);
    BotClient.MoveParses(BoardText(b), text, symbol);
    BotClient.MovePlaced(BoardText(b), text, symbol);
    if b': Board :| |b'| == CELLS && text == BoardText(b') {
      PrintThenParse(b');
      PrintedIsCanonical(b, symbol, text, b');
    } else if Canonical(Request(symbol, BoardText(b)), Reply(text)) {
      var b' := CanonicalIsPrinted(Request(symbol, BoardText(b)), text);
    }
  }

  /** Not every granted reply is: with a blank line in front, any legal move is granted and
      passed on, and the browser reads another board. */
  lemma GrantedYetMisread(b: Board, b': Board, symbol: Player)
    requires |b| == CELLS && LegalStep(b, b', symbol)
    ensures var text := "\n" + BoardText(b');
      && BotClient.RequestBotTurn(BotClient.Object(Some(text)), symbol, BoardText(b)) == BotClient.NewBoard(text)
      && ParseGrid(text) != GridOf(b')
  {
    var text := "\n" + BoardText(b');
    PrintThenParse(b);
    ParseExact(BoardText(b), b);
    BlankLineIgnored(b');
    assert BotClient.WritesMove(BoardText(b), text, symbol);
    BotClient.GrantedIffLegal(BotClient.Object(Some(text)), symbol, BoardText(b), text);
    BrowserReadsExactly(text, b');
  }

  lemma BlankLineIgnored(b: Board)
    requires |b| == CELLS
    ensures Writes("\n" + BoardText(b), b)
  {
    PrintThenParse(b);
    ParseExact(BoardText(b), b);
    var r0, r1, r2 := RowText(b[0..3]), RowText(b[3..6]), RowText(b[6..9]);
    JoinThree(r0, r1, r2, "\n");
    assert "\n" + BoardText(b) == "\n" + (r0 + "\n" + (r1 + "\n" + r2)) + "";
    assert Blank("\n") && Blank("") && IsBreak("\n");
  }
}
