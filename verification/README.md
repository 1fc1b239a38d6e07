# A verified model of the tic-tac-toe bot platform

People upload bots; the platform builds a pod for each, schedules every ordered pairing of ready bots, referees the
matches over HTTP, records them and ranks the bots. This project models that logic in Dafny and proves what it is for.
`dafny verify dfyconfig.toml` checks all of it.

**The perfect bot** (`Game`, `Strategy`, `Classic`, `TurnServer`, `PerfectBot`). The recursive search is modelled in place, on one
array that each trial mark is written to and removed from, for any number of cells, any winning lines and any win
constant above the number of cells. It returns exactly the game value and the first optimal move, and the value says
exactly what a player can force and how early. For 3x3, pairing strategies and the symmetries of the board (no enumeration of games)
show that the empty board is a draw, so the program, run as a pod against arbitrary opponents, never loses a refereed
match, and two such pods always draw.

**The referee** (`PyText`, `Engine`, `MatchLoop`, `MatchRunner`, `Store`). Bots may answer anything. The accepted board
texts are characterised over all strings, the moves accepted are exactly the legal ones, the loop always ends with a
result unless a turn raises an exception other than `URLError`, and what it records is a legal game. `MatchLoop` takes
the turn, the winning lines and the printed form of a board as parameters (an `Arena`); `MatchRunner` supplies the real
ones.

**The pipeline** (`Pipeline`, `Scheduling`, `Recording`, `Completion`). Submissions, the pod builder, the scheduler and the match handler are a transition system
over the tables and three queues. Taking a message, looking up rows, committing and publishing are separate steps of each
handler, so that every interleaving is a run. No message is given up, every run can be finished, and once all bots are
handled every ordered pairing has been published once, or twice if each bot was ready at the read for the other.

**Versions and names** (`Naming`, `Versions`, `Submission`). Reading the next version and inserting a row are separate
steps guarded only by the unique versioned name. **Accounting** (`Leaderboard`, `Pages`): the counting queries are
modelled as joins and filters over tables of any size with SQL's third truth value, and balance. **The whole**
(`Platform`): submissions and the pipeline run together from docstrings on, and what each part keeps holds in every
reachable state.

**The play page** (`BotClient`, `PlayState`, `PlayPages`, `PerfectOpponent`). Clicks and late answers interleave; at most
one request is under way and only its answer moves the page. **The coverage report** (`Coverage`): innermost ranges,
covered lines, and a list of missing lines that reads back.

Boards are sequences of nine cells in row-major order (`3 * row + column`) where the source nests lists of rows. A queue
is a multiset of messages; a table is a sequence of rows.

Where the code and its documentation differ, the model follows the code:

- The platform's own README.md says in line 394 that a timeout is a forfeit. Only `URLError` is caught
  (dispatcher/match_runner.py:88), so a bare timeout while reading, or malformed JSON, ends the match without a result,
  as does a look-up of a pod that raises: `MatchRunner.TimeoutIsNoForfeit` is such a match,
  `MatchRunner.AbortsExactlyOnException` says when.
- It says in line 390 that a message is published for every ordered pairing. That is at least one, and two when both
  bots were ready before either ready message was answered with a read: `Scheduling.ExactlyOnceFails` is such a run,
  `Scheduling.TwiceExactly` says when.
- `_lifetime_stats` (entities/bot/repository.py:105-107) says that matches within a family are left out. A match of a
  version against itself still counts as a lifetime win: `Leaderboard.SelfMatchCounts` is one,
  `Leaderboard.LifetimeWinOfMatch` says which matches count.
- The play page's server passes the bot's text on as it came (web/bot_client.py:122) and the browser splits it naively.
  `PlayState.BrowserReadsExactly` says which of the granted texts the browser reads as the board they write, and
  `PlayPages.GrantedYetMisread` gives granted texts that it does not.

## Model

| member | source | states |
|---|---|---|
| Boards.WinnerIsFirst | example_bots/perfect_bot_v2.py:18-23 | a player wins exactly if it has completed a line with no completed line before it in scan order |
| Boards.EmptiesAscend | example_bots/perfect_bot_v2.py:26-27 | the candidate moves are in row-major order |
| Boards.EmptyAt | example_bots/perfect_bot_v2.py:26-27 | every empty cell is a candidate move |
| Game.ValueIsExtreme | example_bots/perfect_bot_v2.py:41-53 | the value of an unfinished board is attained by a legal move and bounds the value of every legal move, from the side to move |
| Game.ValueBounds | example_bots/perfect_bot_v2.py:33-41 | every value lies within the win constant, so a sentinel is never the result |
| Game.FirstBestExists | example_bots/perfect_bot_v2.py:42-53 | an unfinished board has a first optimal move in row-major order |
| Game.Minimax | example_bots/perfect_bot_v2.py:30-53 | the search leaves the array as it found it, returns the game value, and returns no move exactly on finished boards and else the first optimal one, for either side to move |
| Strategy.ValueIsWhatCanBeForced | example_bots/perfect_bot_v2.py:30-53 | a value of at least v is the same as a strategy that ends with at least v against every continuation |
| Strategy.ZeroSum | example_bots/perfect_bot_v2.py:30-53 | the search seen by the opponent has the negated value |
| Strategy.ValueIsHowEarly | example_bots/perfect_bot_v2.py:33-53 | a value of at least 10 - n is the same as a strategy that wins with at most n marks on the board, whatever the opponent plays |
| Strategy.LossIsHowEarly | example_bots/perfect_bot_v2.py:33-53 | a value of at most n - 10 is the same as the opponent being able to win with at most n marks |
| Strategy.WinsAtOnce | example_bots/perfect_bot_v2.py:41-53 | where the side to move can complete a line at once, the search's move completes one |
| Strategy.ValueNeverDrops | example_bots/perfect_bot_v2.py:56-63 | in every run in which one side always plays the search's move, the value to that side never falls below the opening value |
| Strategy.SearchSecuresValue | example_bots/perfect_bot_v2.py:30-63 | such a side never loses from a value of at least 0, and from v > 0 wins with at most 10 - v marks on the board |
| Strategy.SearchingOpponentHoldsValue | example_bots/perfect_bot_v2.py:30-63 | against a searching opponent nobody gets more than the opening value |
| Classic.SurvivingIsNotLosing | example_bots/perfect_bot_v2.py:30-53 | a nonnegative value is the same as being able to keep the opponent from every line |
| Classic.PairingSurvives | example_bots/perfect_bot_v2.py:6-23 | answering inside pairs of cells that guard every line keeps the opponent from completing one |
| Classic.MovedSurvives | example_bots/perfect_bot_v2.py:6-15 | turning or mirroring the board does not change who can be kept from a line |
| Classic.EmptyBoardIsADraw | example_bots/perfect_bot_v2.py:6-53 | the search values the empty 3x3 board 0 for both players |
| PerfectBot.Program | example_bots/perfect_bot_v2.py:56-63 | for every input that strips to a symbol and the rows of a board, the program raises exactly on finished boards and else prints, up to white space, the board after the search's move |
| PerfectBot.SafeToTheEnd | dispatcher/match_runner.py:118-140 | if every turn on a safe board keeps to safe boards, a match from a safe board is neither lost nor forfeited |
| PerfectBot.NeverLosesFrom | dispatcher/match_runner.py:118-140 | from every position of a match with nonnegative value the searching side neither loses nor forfeits, whatever the other side answers |
| PerfectBot.InputReads | bot-runner-images/python/turn_server.py:26-32 | what the turn server sends is such an input |
| TurnServer.ServesWhatWasPrinted | bot-runner-images/python/turn_server.py:20-45 | the turn server answers with a board text or an error, and with a text exactly if the program printed it, not empty, with only white space around it |
| TurnServer.ErrorsAreNamed | bot-runner-images/python/turn_server.py:33-44 | a timeout, an exception and an empty output are each reported exactly in their case |
| PerfectBot.ProgramAnswersPerfectly | bot-runner-images/python/turn_server.py:40-45 | a pod whose answers are made from the program's output plays the search's move on every unfinished board |
| PerfectBot.ProgramPod | bot-runner-images/python/turn_server.py:40-45 | such a pod exists |
| PerfectBot.PerfectBotNeverLoses | example_bots/perfect_bot_v2.py:30-63 | with either symbol and against any pod, a whole refereed match is neither lost nor forfeited by the perfect bot, and only the other pod can leave it without a result |
| PerfectBot.PerfectBotsDraw | example_bots/perfect_bot_v2.py:30-63 | a match of two perfect bots ends with a cat game |
| PyText.StripIsCore | runner/engine.py:37 | stripping removes exactly the white space around a trimmed text, and everything from white space alone |
| PyText.SplitFirstLine | runner/engine.py:37 | splitting into lines cuts at each line break of any kind, also before an empty line; only a carriage return before a newline is no break of its own |
| PyText.JoinSplit | runner/engine.py:42-50 | joining what was split at a separator gives the text back |
| PyText.SplitJoin | runner/engine.py:42-50 | splitting what was joined gives the parts back if none holds the separator |
| Engine.ParseBoard | runner/engine.py:36-46 | the parsing loop computes the board a text stands for, or none |
| Engine.RowExact | runner/engine.py:42-44 | a row is accepted exactly if it is the printed form of its three cells |
| Engine.ParseExact | runner/engine.py:36-46 | over all strings, a text is read as board b exactly when it is the three printed rows of b with one line break of any kind between them and any white space around them |
| Engine.PrintThenParse | runner/engine.py:36-50 | a printed board reads back as itself |
| Engine.BoardLetters | runner/engine.py:49-50 | the printed board letter by letter: cell i at place 2 i, newlines after the cells 2 and 5, bars after the others |
| Engine.CheckWinner | runner/engine.py:53-62 | no outcome exactly for an undecided board with an empty cell, a cat game exactly for a full board without lines, a win only for the owner of a line, never a forfeit |
| Engine.ChangesExact | runner/engine.py:66-71 | the changes are all the differing cells, in row-major order |
| Engine.AcceptedIffLegal | runner/engine.py:65-81 | a move is accepted exactly when it marks one empty cell with the mover's symbol |
| Engine.RefusalsAreExact | runner/engine.py:72-80 | each refusal is given exactly in its case, with the right count or cell |
| MatchLoop.TakeTurns | dispatcher/match_runner.py:114-140 | the loop computes the run defined turn by turn, with board, history and result |
| MatchLoop.PositionStep | dispatcher/match_runner.py:118-140 | an accepted turn adds one mark of its mover, completes lines of the mover only, and the ninth ends the game |
| MatchLoop.MatchIsTotal | dispatcher/match_runner.py:118-140 | no run falls through the loop without a result |
| MatchLoop.AbortedExactly | dispatcher/match_runner.py:72-140 | a run ends with an exception at a turn exactly if it reaches that turn and the turn raises one |
| MatchLoop.HistoryIsLegal | dispatcher/match_runner.py:114-140 | every result records a legal game: numbers, alternating players, what each turn gave, one legal mark a move, an error only last and with the board unchanged, no earlier board decided, no line of the side that did not move |
| MatchLoop.MarksAlternate | dispatcher/match_runner.py:114-140 | after i moves of a recorded game X has (i + 1) / 2 marks, O has i / 2, and nobody has won |
| MatchLoop.OutcomeMeaning | dispatcher/match_runner.py:130-140 | a win is exactly a last move without error that completes the mover's line, a forfeit exactly an error of the last mover, a cat game exactly nine moves without error or line |
| MatchRunner.PlayedIffLegalReply | dispatcher/match_runner.py:55-97 | a turn is played exactly when the reply has no error and writes a board one legal mark away; an exception escapes exactly if it is no `URLError` |
| MatchRunner.ErrorsAreExact | dispatcher/match_runner.py:72-89 | each kind of forfeit error is recorded for exactly the replies it is meant for, over all replies |
| MatchRunner.RunMatch | dispatcher/match_runner.py:100-140 | a match of two pods is the loop's run with their turns from the empty board, if both addresses can be looked up |
| MatchRunner.AbortsExactlyOnException | dispatcher/match_runner.py:72-140 | a match ends without a result before its first turn exactly if a look-up raises, and at a later turn exactly if both succeed and that turn is reached and answered by an exception other than `URLError` |
| MatchRunner.TimeoutIsNoForfeit | dispatcher/match_runner.py:88-89 | such an exception on X's first turn leaves the match without a result |
| MatchRunner.EveryMatchIsALegalGame | dispatcher/match_runner.py:100-140 | for all pods, adversarial or not, a match never falls through and its history is a legal game from the empty board |
| MatchRunner.RecordedTextReadsBack | dispatcher/match_runner.py:130-137 | every recorded board text parses to the board of its move |
| Store.MatchRepository.Record | entities/match/repository.py:87-119 | recording adds one match row with the winner the result stands for and one move row per move, in order, and changes nothing else |
| Store.StoredWinner | entities/match/repository.py:91-96 | for every match the loop can produce, the stored winner is the last mover's bot for a line, the other bot for an error, and none exactly for a nine-move cat game |
| Store.StoredMoves | entities/match/repository.py:108-118 | the move rows are numbered from 1 and alternate between the two bots, X first, with the boards of the game; only the last can hold an error |
| Store.GameIsStored | entities/match/repository.py:87-119 | for every legal game, the match row and the move rows give its winner, numbers, sides, boards and error |
| Leaderboard.NetOfMatch | entities/bot/repository.py:59-96 | a match adds one win to its winner and one loss to its loser and nothing to others, and a self match only the win |
| Leaderboard.GameCounts | entities/bot/repository.py:59-96 | a stored game is a clean win of the side whose last move completed a line, a forfeit win of the side whose opponent's last move is an error, a draw of both after nine moves without line or error, and a loss of a side in any other case |
| Leaderboard.LifetimeWinOfMatch | entities/bot/repository.py:122-137 | the three-way join keeps a match once for the winner's family, unless two versions of that family played it |
| Leaderboard.SelfMatchCounts | entities/bot/repository.py:105-137 | a won self match is a lifetime win of its family and no lifetime loss |
| Leaderboard.LifetimeLossOfMatch | entities/bot/repository.py:147-171 | the join with the nested NOT EXISTS keeps a match once for the loser's family, unless both sides are of one family |
| Leaderboard.FamilyNetOfMatch | entities/bot/repository.py:51-173 | summed over the versions of a family, a match adds the same to wins less losses as to lifetime wins less losses |
| Leaderboard.FamilyAccounts | entities/bot/repository.py:51-173 | lifetime wins less lifetime losses of a family are the wins less the losses of all its versions, for tables of any size |
| Leaderboard.VersionPartition | entities/bot/repository.py:51-96 | clean wins, forfeit wins, draws and losses add up to the matches a version takes part in, a self match counted once |
| Leaderboard.VersionsConserve | entities/bot/repository.py:51-96 | over all versions, wins add up to the decisive matches and losses to the decisive ones that are no self matches |
| Leaderboard.FamiliesConserve | entities/bot/repository.py:99-173 | over all families, lifetime wins add up to the decisive matches not between versions of one family, lifetime losses to those between two families |
| Naming.ReadBack | web/utils.py:102-103 | a printed version number reads back |
| Naming.DecimalExact | web/utils.py:102-103 | a number is printed with digits that read as it and no leading zero |
| Naming.NameRefusedExactly | web/submit.py:45-54 | a name is refused exactly if it is missing or ends in `V` and digits |
| Naming.SuffixedNamesDiffer | web/utils.py:102-103 | two names with a version suffix are equal only for the same base name and version |
| Naming.CollisionExact | web/utils.py:102-103 | without any check on names, the only collisions are a first version whose base name ends like a later version's suffix |
| Naming.VersionedNameInjective | web/submit.py:45-54 | for names the reserved-suffix check accepts, base name and version are determined by the versioned name, across families |
| Versions.MaxVersionSpec | entities/bot/repository.py:242-247 | the maximum bounds the versions of the family and is one of them unless there are none |
| Versions.BotRepository.NextVersion | entities/bot/repository.py:242-247 | the next version is one above the family's maximum |
| Versions.BotRepository.Create | entities/bot/repository.py:249-273 | an insert adds the row, or leaves the table as it is exactly if the versioned name is taken |
| Versions.TakenIffPresent | entities/bot/model.py:12-15 | the unique constraint refuses exactly versions that the same family already has |
| Versions.InsertSucceedsIff | web/submit.py:80-100 | an insert succeeds exactly if the version its submission read is still the next one |
| Versions.StepKeepsInvariant | web/submit.py:80-100 | each read and each insert keeps ids and versions unique, every family at 1 to n and pending versions in range |
| Versions.VersionsStayContiguous | web/submit.py:80-100 | however submissions interleave, the versions of every family are exactly 1 to n |
| Versions.SizeIsMaxVersion | entities/bot/repository.py:242-247 | in every reachable table a family has as many rows as its maximal version |
| Versions.SubmissionAddsARow | web/submit.py:80-100 | from every reachable state, an accepted submission that reads and inserts without another insert of its family in between adds exactly one row: its name and runtime, the version one above the number of the family's rows, and no pod |
| Versions.LatestBotsSpec | entities/bot/repository.py:22-46 | the latest-version join keeps exactly the bots with their family's maximal version, at most one a family |
| Versions.OneRowPerFamily | entities/bot/repository.py:17-48 | in every reachable table the leaderboard lists every family exactly once, and nothing else |
| Versions.NamesStayUnique | entities/bot/model.py:12-15 | in every reachable table ids and versioned names are unique |
| Versions.LeaderboardConserves | entities/bot/repository.py:176-205 | the lifetime columns of the leaderboard's rows add up to the decisive matches, as above, in every reachable table |
| Pages.GroupMatchesByVersion | web/utils.py:128-146 | each version gets exactly the matches it takes part in, in order, a self match once |
| Pages.InvolvingExact | web/utils.py:141-145 | a version's group is, in order, exactly the matches with it on either side |
| Pages.ListForBotExact | entities/match/repository.py:25-84 | a family's list shows, in order, exactly the matches that a version of it plays in, each with its id and the names of both bots |
| Pages.GroupSizeIsStatistics | entities/match/repository.py:77-84 | on the family's page, a version's group is as long as its four statistics add up to |
| Submission.ExtractRuntimeKey | web/utils.py:73-90 | the loop finds the key the last `language:` line, else the last `python:` line, else the default gives, and only keys of the allowlist |
| Submission.LastFieldExact | web/utils.py:76-81 | a field's value is that of the last line with the field, wherever it is |
| Submission.FieldExact | web/utils.py:78-81 | a field name is matched letter by letter in either case |
| Submission.RuntimeKeyExact | web/utils.py:83-90 | a docstring gets a runtime exactly if it is one of the five supported and that of the last `language:` line, or without one of the last `python:` line, or without either the default |
| Submission.ExtractBotName | web/utils.py:41-47 | the loop finds the name of the first `name:` line, or none if there is none or it is empty |
| Submission.FirstFieldExact | web/utils.py:41-45 | the value is that of the first line with the field, even if a later one also has it |
| Submission.BotNameExact | web/utils.py:41-47 | a docstring gets exactly the name of its first `name:` line, unless that is empty |
| Pipeline.OndeckQueue.EnqueueMatches | match_scheduler/main.py:28-65 | the loop publishes the pairings of the bot with the ready bots, in order, and counts them |
| Pipeline.PairingsExact | match_scheduler/main.py:33-64 | the published pairings are each ordered pairing with a ready bot exactly once, the self pairing included, and nothing else |
| Pipeline.PairingsCount | match_scheduler/main.py:32-65 | the count is twice the ready bots, less one for the self pairing |
| Pipeline.StepKeepsInvariant | dispatcher/pod_builder.py:66-99 | every step of every handler keeps each bot in one place, readiness committed before it is announced, reads that see each other, and published plus due equal to what the reads call for |
| Pipeline.RunsKeepInvariant | match_scheduler/main.py:68-81 | all of that holds in every state of every interleaving |
| Pipeline.PodsAreApart | dispatcher/pods.py:27-29 | in every run a ready bot's pod is named after its id, and no two bots have the same |
| Recording.RowsAreTheRecords | dispatcher/ondeck_handler.py:83-85 | in every run the match rows are, in order, exactly the recordings made, with pairing, result, its winner and correlation id |
| Recording.MovesAreTheRecords | dispatcher/ondeck_handler.py:83-85 | and the move rows are exactly those of the recordings |
| Recording.RecordedGame | dispatcher/ondeck_handler.py:72-85 | recording what the referee made of two pods adds one match row with the pairing and the rows of the legal game they played |
| Scheduling.PairScheduledOnceOrTwice | match_scheduler/main.py:76-80 | once both bots' ready messages are read and nothing is due, their pairing was published once, or twice exactly if each read saw the other bot; a self pairing once |
| Scheduling.NeverMoreThanTwice | match_scheduler/main.py:28-81 | at no time is a pairing published more than twice, a self pairing more than once, or a bot that is not ready paired |
| Pipeline.NoJobIsDropped | dispatcher/ondeck_handler.py:31-85 | in every run no handler gives up a message: builds name known bots and allowed runtimes, queued pairings name bots with pods, and published pairings are queued, in play or recorded |
| Scheduling.HowManyMatches | match_scheduler/main.py:28-81 | when all N bots are handled, N * N pairings were published plus one for each ordered pair of bots whose reads saw each other, of which there are at most N * N - N |
| Scheduling.EveryPairIsPlayed | dispatcher/ondeck_handler.py:53-85 | when everything is handled, any two bots have a recorded match in each order, or two if each read saw the other, and each bot one with itself |
| Scheduling.TwiceExactly | match_scheduler/main.py:76-80 | a pairing of two bots is published twice exactly if each was ready at the read for the other, and else once; at least one of them was |
| Scheduling.ReadyTogetherScheduledTwice | match_scheduler/main.py:76-80 | two bots that are ready before either message is handled are scheduled twice |
| Scheduling.ReadyLaterScheduledOnce | match_scheduler/main.py:76-80 | a bot that becomes ready after the other's message is handled meets it once in each order |
| Completion.EveryRunCanFinish | match_scheduler/main.py:68-81 | from every reachable state, without new submissions, the handlers can bring every bot to its read, publish every pairing and record every match |
| Scheduling.ExactlyOnceFails | match_scheduler/main.py:68-81 | a run of two bots that publishes a pairing twice |
| Platform.RunProjects | web/submit.py:123-163 | every run of the whole platform is, part by part, a run of the submissions and one of the pipeline, over tables that agree |
| Platform.InsertReachesThePipeline | web/submit.py:153-163 | an insert whose version is still the next one adds a bot that is new to the pipeline, any other changes no table |
| Platform.DocstringAddsARow | web/submit.py:123-163 | an acceptable docstring that is submitted and then inserted, without another insert of its family in between, adds one row to both tables: the next version of the name it gives with the runtime it asks for, awaiting its build message |
| Platform.RefusedChangesNothing | web/submit.py:135-141 | a docstring without a known runtime or an acceptable name changes nothing |
| Platform.TablesStayValid | entities/match/repository.py:87-119 | in every reachable state ids and versioned names are unique, and every match row has the winner of its result and refers to bots in the table |
| Platform.NoJobIsDropped | dispatcher/pod_builder.py:43-63 | in every reachable state no message has been given up; builds name known bots with runtimes of the allowlist, taken from their docstrings, and queued pairings name bots with pods |
| Platform.AccountsBalance | entities/bot/repository.py:51-173 | the family accounting law holds in every reachable state |
| Platform.StatisticsAgree | entities/match/repository.py:77-84 | in every reachable state a version's statistics add up to the length of its group on the bot page |
| Platform.LeaderboardBalances | entities/bot/repository.py:176-205 | in every reachable state the conservation laws hold over all versions and over the leaderboard's rows |
| Coverage.InnermostCount | scripts/js_coverage_report.py:45-55 | the count of the smallest range around the offset, the latest declared on ties, and 0 if there is none |
| Coverage.InnermostIsDeepest | scripts/js_coverage_report.py:45-55 | for nested ranges that range lies inside every other one around the offset |
| Coverage.PositionOnLine | scripts/js_coverage_report.py:61-71 | the running offset is the true source index: a character with i newlines before it lies between line i's offset and its end |
| Coverage.LineCoverage | scripts/js_coverage_report.py:58-72 | a line is marked exactly if a non-blank source position with that many newlines before it has been executed |
| Coverage.CodeLineExact | scripts/js_coverage_report.py:75-86 | a line counts exactly if what follows its leading white space is neither empty nor a comment |
| Coverage.Summarize | scripts/js_coverage_report.py:89-103 | hits are the covered code lines, the missing numbers are exactly the others in strictly ascending order, and the two add up to the total, the number of code lines |
| Coverage.FormatMissing | scripts/js_coverage_report.py:106-119 | the loop prints the runs of the list |
| Coverage.RunsExpand | scripts/js_coverage_report.py:110-118 | the runs stand for the list in order, and none continues the one before |
| Coverage.RunsAreUnique | scripts/js_coverage_report.py:110-118 | they are the only such runs |
| Coverage.RunsAreSeparate | scripts/js_coverage_report.py:110-118 | for an ascending list the runs are disjoint, ordered and apart |
| Coverage.RunTextExact | scripts/js_coverage_report.py:116-118 | a run of one number is printed as the number and a longer one as its two ends |
| Coverage.ExampleMissing | scripts/js_coverage_report.py:107 | the documented example is printed as documented |
| Coverage.MissingReadsBack | scripts/js_coverage_report.py:106-119 | reading the printed text gives the list of numbers back |
| Coverage.Report | scripts/js_coverage_report.py:167-171 | the text printed for a file reads back, in ascending order, as exactly its code lines on which nothing has been executed, and hits plus missing are all its code lines |
| BotClient.SameMovesAccepted | web/bot_client.py:69-82 | the play page's check accepts the moves the dispatcher's check accepts: the legal ones |
| BotClient.GrantedIffLegal | web/bot_client.py:85-122 | for every request and answer, a turn is granted exactly if both texts write boards one legal mark apart, and that text is passed on |
| BotClient.ReasonsAreExact | web/bot_client.py:99-121 | each reason is given exactly for its failure: the move is called invalid exactly if the answer is no JSON or an object without a text that writes a legal move |
| BotClient.SameRepliesAccepted | web/bot_client.py:112-122 | for a string board and no error, dispatcher and play page accept exactly the same replies |
| PlayState.PrintOfParse | web/static/play-state.mjs:28-34 | over all strings, the browser's print of its parse is the text |
| PlayState.GridTextIsBoardText | web/static/play-state.mjs:28-30 | the browser prints a board as the server does |
| PlayState.BrowserReadsExactly | web/static/play-state.mjs:32-34 | the browser reads a text as board b exactly when it is b as printed |
| PlayState.VerdictExact | web/static/play-state.mjs:36-43 | on boards of any shape, the first line with a missing row or three equal marks decides, and without one whether dots are left |
| PlayState.BrowserVerdict | web/static/play-state.mjs:36-43 | on boards, the browser's winner check agrees with the referee's |
| PlayPages.PlayPage.constructor | web/static/play.mjs:112-141 | the page opens in the initial state, with a request under way exactly if the bot is X |
| PlayPages.RequestReadsBack | web/static/play.mjs:83-92 | in a canonical run a request's text reads at the server as the undecided board the page shows, and its symbol is the side to move there |
| PlayPages.PlayPage.Click | web/static/play.mjs:126-137 | a click is the human's move with the request it calls for, or changes nothing |
| PlayPages.PlayPage.Receive | web/static/play.mjs:115-124 | an answer is applied to the state at that time, or ends the game with its reason |
| PlayPages.OneRequestAtATime | web/static/play.mjs:115-141 | in every run with any answers at most one request is under way, exactly on the bot's turn, and it carries the board still shown |
| PlayPages.OnlyTheAnswerMoves | web/static/play-state.mjs:65-69 | while a request is under way no click changes the page |
| PlayPages.EndedForGood | web/static/play-state.mjs:65-116 | ended games never reopen or change |
| PlayPages.CanonicalGame | web/static/play-state.mjs:45-107 | with canonical answers the page shows a game: each board is the one before or one legal move of the side whose turn it is, marks count as the turn says, nobody has won before the end, and the caption is the outcome's |
| PlayPages.ClickMarksTheCell | web/static/play-state.mjs:65-71 | in a canonical run a click on the human's turn marks exactly the empty cell it is on, and any other click changes nothing |
| PlayPages.FailedTurn | web/static/play.mjs:93-122 | a turn that is not granted ends the game with the board as it was and the server's reason in the caption |
| PlayPages.MarksStay | web/static/play-state.mjs:89-107 | with canonical answers no mark is ever erased or changed |
| PlayPages.BrowserReadsRecorded | web/static/play-state.mjs:32-34 | on every board text a refereed match records, the browser's naive split gives the board |
| PlayPages.CanonicalExactly | web/bot_client.py:85-122 | for a board the page sent, the server's answer is canonical exactly when the text it grants, if any, is a printed board |
| PlayPages.GrantedYetMisread | web/bot_client.py:112-122 | with a newline in front, every legal move is granted and passed on, and the browser reads another board |
| PerfectOpponent.HumanNeverBeatsPerfectBot | web/static/play.mjs:112-141 | however a human clicks, with either symbol, a game against the perfect bot ends, if it ends, as a cat game, with the bot's win, or after a failed request |

## Left out

- Correlation ids: they are chosen when a match is recorded, where the source passes on the one of its message.
- Kubernetes, HTTP, AMQP and SQLAlchemy: a reply, a queue and a table are values; a pod's answer is any function of turn, symbol and board.
- Redelivered messages, crashes between steps, lost pods and database outages: runs handle each message once to its end. A match that ends with an exception stays in play.
- State inside a pod: a pod is a function of turn number, symbol and board, and as the turn numbers of a match differ, every sequence of replies in one match is covered.
- Owner tokens and cookies: the token lookup and the insert are separate awaits, and no uniformity of tokens is claimed under interleaving.
- Python's parser: `Submission.ExtractRuntimeKey` and `Submission.ExtractBotName` start from the docstring, and a source without one is refused before it.
- Naming.VersionedNameInjective: digits are ASCII and the reserved suffix must end the name, where the source's pattern also takes other Unicode digits and a final newline.
- PerfectBot.Program: inputs that do not strip to a symbol and three rows of a board; the turn server passes on what the referee or the play page sent.
- Submission.ExtractRuntimeKey: lower case is that of ASCII letters, enough for the field names.
- Rows are ordered by insertion: sorting by submission or playing time (entities/bot/repository.py:202-205, entities/match/repository.py:80-82) is presentation.
- Coverage offsets are indices of characters, as in the source; V8 counts UTF-16 units, which differ outside the basic plane.
- Merging the coverage of several files (scripts/js_coverage_report.py:122-147), which concatenates ranges, and the percentages.
- The RPC client's table of pending calls (messaging/rpc_client.py): its steps are one-line dictionary updates.
- The other example bots, health checks, routing, templates, the styling of captions, sounds, migrations, reset and seed scripts.
