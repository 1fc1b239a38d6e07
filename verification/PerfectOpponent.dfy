/** The perfect bot behind the play page: the human never wins. */
module PerfectOpponent {
  import opened Boards
  import opened Engine
  import opened Game
  import opened Strategy
  import opened Classic
  import opened PlayState
  import opened PlayPages
  import Bot = PerfectBot

  /** The answer is what the searching bot prints for the requested board, unless there is
      none. */
  ghost predicate Perfect(g: Rules, r: Request, a: Answer) {
    a.Reply? ==> exists b: Board :: |b| == CELLS && r.board == BoardText(b) && Bot.IsBestReply(g, b, r.symbol, a.text)
  }

  ghost predicate PerfectRun(g: Rules, ctx: Context, pages: seq<Page>, events: seq<Event>) {
    && PlayPages.IsRun(ctx, pages, events)
    && forall i :: 0 <= i < |events| && events[i].Arrive? ==>
         Perfect(g, pages[i].waiting[events[i].request], events[i].answer)
  }

  /** The page shows a board from which the bot still does not lose, or a game that the bot
      has not lost or, if one has `failed`, that a request ended. */
  ghost predicate Safe(g: Rules, ctx: Context, s: PageState, b: Board, failed: bool) {
    && Shows(ctx, s, b)
    && if s.whose.Over? then
         (failed && Forfeited(s)) || (Closed(ctx, s, b) && CheckWinner(ctx.lines, b) != Some(WinOf(ctx.humanSymbol)))
       else Value(g, b, Mover(ctx, s.whose), BotSymbol(ctx)) >= 0
  }

  /** What a legal move makes of a safe board is safe again, if it keeps the value. */
  lemma SettledSafe(g: Rules, ctx: Context, b: Board, next: Whose, failed: bool)
    requires g.Valid() && g.cells == CELLS && g.lines == ctx.lines && Fits(ctx.lines) && |b| == CELLS && !next.Over?
    requires Balanced(b, Mover(ctx, next)) && Value(g, b, Mover(ctx, next), BotSymbol(ctx)) >= 0
    ensures var r := Settled(ctx, GridOf(b), next); r.Some? && Safe(g, ctx, r.value, b, failed)
  {
    SettledShows(ctx, b, next);
    Bot.UndecidedIsNotEnded(g, b);
    if Ended(g, b) {
      Bot.NotLostWhenEnded(g, b, Mover(ctx, next), BotSymbol(ctx));
    }
  }

  lemma ClickSafe(g: Rules, ctx: Context, p: Page, index: nat, b: Board, failed: bool) returns (b': Board)
    requires g.Valid() && g.cells == CELLS && g.lines == ctx.lines && Fits(ctx.lines)
    requires InTurn(ctx, p) && Safe(g, ctx, p.state, b, failed) && index < CELLS
    ensures Safe(g, ctx, Clicked(ctx, p, index).state, b', failed)
  {
    b' := ClickShows(ctx, p, index, b);
    if Clicked(ctx, p, index) != p {
      Bot.UndecidedIsNotEnded(g, b);
      BalanceMoves(b, b', ctx.humanSymbol);
      assert BotSymbol(ctx).Other() == ctx.humanSymbol;
      OpponentCannotLowerValue(g, b, b', BotSymbol(ctx));
      SettledSafe(g, ctx, b', Bot, failed);
    }
  }

  lemma ReplySafe(g: Rules, ctx: Context, p: Page, text: string, b: Board, failed: bool) returns (b': Board)
    requires g.Valid() && g.cells == CELLS && g.lines == ctx.lines && Fits(ctx.lines)
    requires InTurn(ctx, p) && p.waiting != [] && Safe(g, ctx, p.state, b, failed) && Perfect(g, p.waiting[0], Reply(text))
    ensures Safe(g, ctx, StateAfter(ctx, p.state, Reply(text)), b', failed)
  {
    var asked: Board :| |asked| == CELLS && p.waiting[0].board == BoardText(asked)
      && Bot.IsBestReply(g, asked, p.waiting[0].symbol, text);
    GridTextIsBoardText(b);
    GridsDiffer(b, asked);
    var me := BotSymbol(ctx);
    var c: nat :| IsFirstBest(g, b, me, me, c) && text == BoardText(b[c := Mark(me)]);
    b' := b[c := Mark(me)];
    assert LegalStep(b, b', me);
    SearchMoveKeepsValue(g, b, b', me, c);
    BalanceMoves(b, b', me);
    BrowserReadsExactly(text, b');
    SettledSafe(g, ctx, b', Human, failed);
  }

  lemma AnswerSafe(g: Rules, ctx: Context, p: Page, a: Answer, b: Board, failed: bool) returns (b': Board)
    requires g.Valid() && g.cells == CELLS && g.lines == ctx.lines && Fits(ctx.lines)
    requires InTurn(ctx, p) && p.waiting != [] && Safe(g, ctx, p.state, b, failed) && Perfect(g, p.waiting[0], a)
    ensures Safe(g, ctx, StateAfter(ctx, p.state, a), b', failed || a.Failure?)
  {
    match a {
      case Reply(text) => b' := ReplySafe(g, ctx, p, text, b, failed);
      case Failure(_) =>
        b' := b;
        assert ctx.humanSymbol == X || ctx.humanSymbol == O;
    }
  }

  lemma StartSafe(g: Rules, ctx: Context)
    requires Fits(ctx.lines) && Value(g, EMPTY_BOARD, X, BotSymbol(ctx)) >= 0
    ensures Safe(g, ctx, InitialState(ctx), EMPTY_BOARD, false)
  {
    OpenedShows(ctx);
    assert Mover(ctx, InitialState(ctx).whose) == X;
  }

  lemma StepSafe(g: Rules, ctx: Context, p: Page, e: Event, b: Board, failed: bool) returns (b': Board)
    requires g.Valid() && g.cells == CELLS && g.lines == ctx.lines && Fits(ctx.lines)
    requires InTurn(ctx, p) && Safe(g, ctx, p.state, b, failed) && Enabled(p, e)
    requires e.Arrive? ==> Perfect(g, p.waiting[e.request], e.answer)
    ensures Safe(g, ctx, Next(ctx, p, e).state, b', failed || Fails(e))
  {
    match e {
      case Click(index) => b' := ClickSafe(g, ctx, p, index, b, failed);
      case Arrive(k, answer) => b' := AnswerSafe(g, ctx, p, answer, b, failed);
    }
  }

  predicate Fails(e: Event) {
    e.Arrive? && e.answer.Failure?
  }

  /** One of the first `n` events is a failed request. */
  predicate FailedBefore(events: seq<Event>, n: nat) {
    exists k :: 0 <= k < n && k < |events| && Fails(events[k])
  }

  ghost predicate SafePage(g: Rules, ctx: Context, s: PageState, failed: bool) {
    exists b: Board :: Safe(g, ctx, s, b, failed)
  }

  lemma RunStepSafe(g: Rules, ctx: Context, pages: seq<Page>, events: seq<Event>, i: nat)
    requires g.Valid() && g.cells == CELLS && g.lines == ctx.lines && Fits(ctx.lines)
    requires PerfectRun(g, ctx, pages, events) && i < |events|
    requires SafePage(g, ctx, pages[i].state, FailedBefore(events, i))
    ensures SafePage(g, ctx, pages[i + 1].state, FailedBefore(events, i + 1))
  {
    var b: Board :| Safe(g, ctx, pages[i].state, b, FailedBefore(events, i));
    OneRequestAtATime(ctx, pages, events, i);
    var b' := StepSafe(g, ctx, pages[i], events[i], b, FailedBefore(events, i));
    assert FailedBefore(events, i + 1) <==> FailedBefore(events, i) || Fails(events[i]);
  }

  /** If the search gives the empty board no negative value, every state of a run against
      the searching bot is safe for it. */
  lemma StaysSafe(g: Rules, ctx: Context, pages: seq<Page>, events: seq<Event>, i: nat)
    requires g.Valid() && g.cells == CELLS && g.lines == ctx.lines && Fits(ctx.lines)
    requires Value(g, EMPTY_BOARD, X, BotSymbol(ctx)) >= 0
    requires PerfectRun(g, ctx, pages, events) && i < |pages|
    ensures SafePage(g, ctx, pages[i].state, FailedBefore(events, i))
  {
    ghost var inv := (k: nat) => k < |pages| && SafePage(g, ctx, pages[k].state, FailedBefore(events, k));
    StartSafe(g, ctx);
    forall k: nat | k < i && inv(k)
      ensures inv(k + 1)
    {
      RunStepSafe(g, ctx, pages, events, k);
    }
    Kept(inv, i);
  }

  /** However a human clicks, with either symbol, a game against the perfect bot ends, if it
      ends, as a cat game, with the bot's win or because a request has failed. */
  lemma HumanNeverBeatsPerfectBot(ctx: Context, pages: seq<Page>, events: seq<Event>, i: nat)
    requires PerfectRun(CLASSIC, ctx, pages, events) && i < |pages| && ctx.lines == WINNING_LINES
    ensures pages[i].state.ended ==>
      || pages[i].state.status in {"Cat game", ctx.botName + " wins"}
      || (Forfeited(pages[i].state) && FailedBefore(events, i))
  {
    ClassicIsValid();
    LinesFit();
    EmptyBoardIsADraw(BotSymbol(ctx));
    OneRequestAtATime(ctx, pages, events, i);
    StaysSafe(CLASSIC, ctx, pages, events, i);
    var b: Board :| Safe(CLASSIC, ctx, pages[i].state, b, FailedBefore(events, i));
  }
}
