# BetPredictionBot, modelled in Dafny

BetPredictionBot is a Telegram bot that posts football predictions. The pieces it is built from:

- **Fixture fetching.** It fetches the coming fixtures of the configured leagues from API-Football (and, on an older path, from football-data.org).
- **Predictions.** It asks ChatGPT for a prediction of each fixture and parses the reply from a fixed bracketed template.
- **Storage.** It keeps the matches in per-league SQLite tables, with an older CSV file as a second store.
- **Channel posts.** It posts the coming matches to a channel. Once a match is over, it edits the post with the result and a ✅ or ❌.
- **Bot commands.** It answers chat commands, some of them only in the admin chat.

This project models the logic that is left once the HTTP, Telegram, SQLite and clock calls are taken out. Those calls become parameters: oracles for the replies, and functions for parsing dates and for hashing. The stores become in-memory state held in Dafny classes.

| module (file) | Kotlin file | what is modelled |
|---|---|---|
| `Common` (common.dfy) | — | nullable values, `trim`, decimal text, `filter`, `count`, string order |
| `Dto` (dto.dfy) | `dto/MatchInfo.kt` | one record holding the union of the fields of the repository's `MatchInfo` versions |
| `KotlinText` (kotlin_text.dfy) | — | `lines()`, `trimIndent()` and `joinToString` on strings |
| `DatabaseService` (database_service.dfy) | `service/DatabaseService.kt` | table names, the `Database` store (tables, `listOfLeagues`, users), inserts, exists, field-restricted updates, window scans, accuracy, user activity |
| `ChatGPTService` (chatgpt_service.dfy) | `service/ChatGPTService.kt` | the template regex as a backtracking matcher, `findAll`, `parseMatchInfo`, the render/parse round trip, the retry loop |
| `CSVService` (csv_service.dfy) | `service/CSVService.kt` | the `CsvStore` (file lines and key set), loading, `appendRows` dedup, `getUpcomingMatches` |
| `FootballBot` (football_bot.dfy) | `FootballBot.kt` | dispatch with the admin gate, help texts, match messages and the result emoji, `updateMessage` outcomes, the command menu, posting upcoming matches |
| `HttpAPIFootballService` (api_football_service.dfy) | `service/HttpAPIFootballService.kt` | the per-fixture insert → three prediction attempts → delete pipeline, results of finished matches, the live state of a fixture |
| `HttpFootBallDataService` (football_data_service.dfy) | `service/HttpFootBallDataService.kt` | the prompt text, `isMatchInFile`, the new-match filter and the append |

How the model relates to the code:

- Timestamps are integers (seconds), and a parse function maps the stored text to them; a text that does not parse is `None`.
- "now" is a parameter. The scans keep the code's strict comparisons: after the lower end and before the upper end.
- The store operations that `HttpAPIFootballService.kt` and `FootballBot.kt` call but that `service/DatabaseService.kt` does not define are specified as their call sites use them. These are `updateMatchPredictions`, `updateMatchDatetime`, `deleteMatchByFixtureId`, `getMatchInfo(fixtureId, league)`, `getMatchInfoByFixtureId`, `getMatchesWithoutMessageIdForNext12Hours` and `getCorrectPredictionsForPeriod`. Updates and deletes are keyed by fixture id. Single lookups use `singleOrNull`, like `getMatchInfo(datetime, teams, league)` in `service/DatabaseService.kt`.
- A prediction is correct when the two outcomes are exactly equal, as the code compares them (`==` on nullable strings). So null equals null, and "Draw" differs from "draw".
- The two retry loops pause differently. `getMatchPredictionsWithRetry` pauses after every attempt that parsed nothing, including the last one. The per-fixture loop of `HttpAPIFootballService.fetchMatches` pauses only between attempts.
- A fixture whose kickoff time moved is not found by `matchExists`, which matches on datetime and teams. So `fetchMatches` inserts it again instead of updating its datetime. `updateMatchDatetime` only runs when the datetime is already equal. `HttpAPIFootballService.RescheduledFixtureStoredTwice` states the consequence: after a successful prediction, two rows carry the fixture id, and the lookup by fixture id finds nothing.

## Model

| member | source | states |
|---|---|---|
| DatabaseService.TableName | src/main/kotlin/service/DatabaseService.kt:56-60 | the table name has the league name's length, no spaces and no ASCII upper-case letters (A–Z) |
| DatabaseService.TableNameIdempotent | src/main/kotlin/service/DatabaseService.kt:59 | deriving a table name from a table name changes nothing |
| DatabaseService.LeaguesCanShareTable | src/main/kotlin/service/DatabaseService.kt:56-60 | two different league names ("Premier League", "premier_league") get the same table |
| DatabaseService.LeagueTableFactory.GetTableForLeague | src/main/kotlin/service/DatabaseService.kt:53-61 | returns the derived table name and caches it under the league name |
| DatabaseService.ListedRows | src/main/kotlin/service/DatabaseService.kt:207-210 | a row is read exactly when it is in the table of a league in `listOfLeagues` |
| DatabaseService.NothingExistsInEmptyStore | src/main/kotlin/service/DatabaseService.kt:244-249 | with no table at all, `matchExists` is false |
| DatabaseService.AppendAllRows | src/main/kotlin/service/DatabaseService.kt:136-161 | each table gains, in order, exactly the matches whose league maps to it, each stored with null odds as "" |
| DatabaseService.AppendedMatchesExist | src/main/kotlin/service/DatabaseService.kt:235-243 | after `appendRows`, `matchExists` holds for every appended match |
| DatabaseService.AddLeaguesSpec | src/main/kotlin/service/DatabaseService.kt:141-144 | `listOfLeagues` stays free of duplicates, keeps its order and gains exactly the appended matches' leagues |
| DatabaseService.UpdateResultRestricted | src/main/kotlin/service/DatabaseService.kt:163-171 | only actual outcome and score change, only on rows of that league's table with the same datetime and teams, which all get the new values; whether a match exists does not change |
| DatabaseService.UpdateMessageIdRestricted | src/main/kotlin/service/DatabaseService.kt:190-196 | only `telegramMessageId` changes, only on rows with the same datetime and teams, which all get the new id |
| DatabaseService.DeleteFixtureRemovesAll | src/main/kotlin/service/HttpAPIFootballService.kt:132 | after the delete, the league's table holds exactly its former rows without that fixture id; other tables are untouched |
| DatabaseService.SingleOrNull | src/main/kotlin/service/DatabaseService.kt:120 | a value exactly when the list has one element, and then that element |
| DatabaseService.MatchInfoIn | src/main/kotlin/service/HttpAPIFootballService.kt:166 | a record is found exactly when the league's table has one row with that fixture id, and it is that row |
| DatabaseService.MatchInfoByFixtureIdIn | src/main/kotlin/service/HttpAPIFootballService.kt:253 | a record is found exactly when the listed leagues' tables have one row with that fixture id, and it is that row, in a listed league's table |
| DatabaseService.WindowRows | src/main/kotlin/service/DatabaseService.kt:210-228 | the scan throws exactly when some datetime does not parse; otherwise it keeps exactly the rows strictly inside the window |
| DatabaseService.WindowScanExact | src/main/kotlin/service/DatabaseService.kt:201-233 | the upcoming scan reads only listed leagues, keeps exactly their rows strictly inside the window, and throws exactly on an unparsable datetime |
| DatabaseService.ScanFailsEarly | src/main/kotlin/service/DatabaseService.kt:207-212 | once the rows of the first leagues throw, the whole scan throws |
| DatabaseService.ScanRows | src/main/kotlin/service/DatabaseService.kt:210-228 | the `mapNotNullTo` loop over a table continues the scan exactly as the window filter does |
| DatabaseService.Accuracy | src/main/kotlin/service/DatabaseService.kt:335-339 | between 0 and 100; 0 when there is no match; otherwise correct × 100 / total, exactly |
| DatabaseService.ReportOf | src/main/kotlin/service/DatabaseService.kt:332-341 | correct ≤ total, and total is the number of rows |
| DatabaseService.CorrectIsExactEquality | src/main/kotlin/service/DatabaseService.kt:333 | null/null counts as correct; outcomes differing only in case do not |
| DatabaseService.CountOneWhenUnique | src/main/kotlin/service/DatabaseService.kt:263 | with one row per user, a user id has one row if registered, else none |
| DatabaseService.AddUserKeepsOneRowPerUser | src/main/kotlin/service/DatabaseService.kt:260-283 | still one row per user; the row count grows by one exactly for a new user; the user's row holds the new names and activity time; a registered user's row is replaced in place and every other user's row is unchanged |
| DatabaseService.Database.constructor | src/main/kotlin/service/DatabaseService.kt:91-96 | an empty store: no tables, no leagues, no users |
| DatabaseService.Database.AppendRows | src/main/kotlin/service/DatabaseService.kt:136-161 | tables and league list become the appended ones; users unchanged; invariant kept |
| DatabaseService.Database.UpdateMatchResult | src/main/kotlin/service/DatabaseService.kt:163-188 | tables become the result-updated ones; nothing else changes |
| DatabaseService.Database.UpdateMatchMessageId | src/main/kotlin/service/DatabaseService.kt:190-199 | tables become the id-updated ones; nothing else changes |
| DatabaseService.Database.UpdateMatchPredictions | src/main/kotlin/service/HttpAPIFootballService.kt:119 | predicted outcome, score and odds of the rows with that fixture id are set; nothing else changes |
| DatabaseService.Database.UpdateMatchDatetime | src/main/kotlin/service/HttpAPIFootballService.kt:136 | the datetime of the rows with that fixture id is set; nothing else changes |
| DatabaseService.Database.DeleteMatchByFixtureId | src/main/kotlin/service/HttpAPIFootballService.kt:132 | the league's rows with that fixture id are removed; nothing else changes |
| DatabaseService.Database.GetMatchInfo | src/main/kotlin/service/HttpAPIFootballService.kt:166 | the lookup of `MatchInfoIn`: the league's one row with that fixture id, null when there are none or several |
| DatabaseService.Database.GetMatchInfoByFixtureId | src/main/kotlin/service/HttpAPIFootballService.kt:253 | the lookup of `MatchInfoByFixtureIdIn`: the one listed row with that fixture id, null when there are none or several |
| DatabaseService.Database.ScanWindow | src/main/kotlin/service/DatabaseService.kt:204-232 | the nested loop over listed leagues and their rows equals the window scan |
| DatabaseService.Database.GetUpcomingMatches | src/main/kotlin/service/DatabaseService.kt:201-233 | the listed rows strictly between now and now + 1 day |
| DatabaseService.Database.GetMatchesWithoutMessageIdForNext12Hours | src/main/kotlin/FootballBot.kt:292 | the rows of the next 12 hours that have no message id, in scan order |
| DatabaseService.Database.AccuracyForWindow | src/main/kotlin/service/DatabaseService.kt:301-342 | the accuracy report of exactly the rows the window scan keeps |
| DatabaseService.Database.GetCorrectPredictionsLast24Hours | src/main/kotlin/service/DatabaseService.kt:301-342 | the report of the rows strictly between now − 1 day and now |
| DatabaseService.Database.GetCorrectPredictionsForPeriod | src/main/kotlin/FootballBot.kt:313 | the report of the rows strictly between now − days and now |
| DatabaseService.Database.AddUserActivity | src/main/kotlin/service/DatabaseService.kt:260-283 | users become the upserted list; tables and leagues unchanged; one row per user kept |
| DatabaseService.CountIsDistinctUsers | src/main/kotlin/service/DatabaseService.kt:285-299 | with one row per user, counting the rows that pass a filter counts the distinct user ids that pass it |
| DatabaseService.Database.GetUserCount | src/main/kotlin/service/DatabaseService.kt:285-289 | the number of distinct user ids in the store |
| DatabaseService.Database.GetActiveUserCountLast24Hours | src/main/kotlin/service/DatabaseService.kt:291-299 | the number of distinct user ids whose last activity is not before the threshold text |
| ChatGPTService.PatternShape | src/main/kotlin/service/ChatGPTService.kt:61 | the expression has seven groups and never matches the empty text |
| ChatGPTService.MatchAt | src/main/kotlin/service/ChatGPTService.kt:61 | a match spans at least the literal text and captures one text per group |
| ChatGPTService.Scan | src/main/kotlin/service/ChatGPTService.kt:62 | every match found by `findAll` has seven groups |
| ChatGPTService.ParsedRecordsArePredictions | src/main/kotlin/service/ChatGPTService.kt:65-72 | every record has null actual outcome, score and message id; its fields are the trimmed groups; teams is home + " vs. " + away |
| ChatGPTService.FindAll | src/main/kotlin/service/ChatGPTService.kt:62 | the leftmost-match loop finds exactly the scan's matches |
| ChatGPTService.ParseMatchInfo | src/main/kotlin/service/ChatGPTService.kt:59-77 | the loop builds exactly the parsed records |
| ChatGPTService.NoRecordsIffNoBlock | src/main/kotlin/service/ChatGPTService.kt:60-76 | the result is empty exactly when no position of the text starts a complete block |
| ChatGPTService.RenderThenMatch | src/main/kotlin/service/ChatGPTService.kt:61 | rendered fields that meet the template's conditions match back as exactly those fields, whatever follows |
| ChatGPTService.LazyGroupStops | src/main/kotlin/service/ChatGPTService.kt:61 | a lazy group stops at the end of its field when the field cannot run into the next literal |
| ChatGPTService.BlockMatches | src/main/kotlin/service/ChatGPTService.kt:61 | a well-formed block matches as its seven fields |
| ChatGPTService.FieldsRecord | src/main/kotlin/service/ChatGPTService.kt:65-72 | a well-formed block's fields become the record the block stands for |
| ChatGPTService.BlockThenParse | src/main/kotlin/service/ChatGPTService.kt:62-74 | a block followed by any text parses to the block's record followed by the text's records |
| ChatGPTService.RoundTrip | src/main/kotlin/service/ChatGPTService.kt:61-72 | rendering a well-formed block and parsing it gives back exactly its record |
| ChatGPTService.SkipPlainText | src/main/kotlin/service/ChatGPTService.kt:62 | text without '[' in front adds no record |
| ChatGPTService.RepliesRoundTrip | src/main/kotlin/service/ChatGPTService.kt:60-76 | well-formed blocks separated by '['-free text parse to their records, in order |
| ChatGPTService.ReplyStep | src/main/kotlin/service/ChatGPTService.kt:60-76 | parsing a reply reads its first well-formed block, skips the '['-free separator and parses the rest |
| ChatGPTService.NoBracketNoRecords | src/main/kotlin/service/ChatGPTService.kt:60-76 | text without '[' yields no record |
| ChatGPTService.RetryRunBounds | src/main/kotlin/service/ChatGPTService.kt:9-28 | the attempts made stay within `retries`, and every attempt before the last parsed to nothing |
| ChatGPTService.RetryRunFound | src/main/kotlin/service/ChatGPTService.kt:9-28 | once some attempt parses to something, the loop stops at the first such attempt with its records not yet stored and one pause per earlier attempt |
| ChatGPTService.RetryRunNothing | src/main/kotlin/service/ChatGPTService.kt:9-28 | when every reply parses to nothing, all `retries` attempts and pauses are made and nothing is returned |
| ChatGPTService.RetryRunSpec | src/main/kotlin/service/ChatGPTService.kt:9-28 | at most `retries` attempts; stops at the first reply that parses to something and returns its records not yet stored; one pause per empty attempt; all empty gives nothing after exactly `retries` attempts and pauses |
| ChatGPTService.RetryReturnsOnlyNewMatches | src/main/kotlin/service/ChatGPTService.kt:13-16 | no returned record is already stored |
| ChatGPTService.ThrowFollowsEmptyReplies | src/main/kotlin/service/ChatGPTService.kt:9-28 | an attempt that throws comes only after attempts that yielded no records |
| ChatGPTService.ThrowsFromIff | src/main/kotlin/service/ChatGPTService.kt:9-28 | the step-by-step throw check holds exactly when one of the attempts the loop makes throws |
| ChatGPTService.RetryThrowsIff | src/main/kotlin/service/ChatGPTService.kt:9-28 | the run throws exactly when one of the attempts it makes throws |
| ChatGPTService.ReplyRecords | src/main/kotlin/service/ChatGPTService.kt:30-57 | the request throws exactly when it gets no reply |
| ChatGPTService.GetMatchPredictionsFromChatGPT | src/main/kotlin/service/ChatGPTService.kt:30-57 | no result exactly when the request throws; otherwise the records parsed from the reply |
| ChatGPTService.GetMatchPredictionsWithRetry | src/main/kotlin/service/ChatGPTService.kt:9-28 | no result exactly when an attempt the loop reaches throws, and then that attempt is the last one made, every earlier one answered and paused after; otherwise the result, attempt and pause counts are those of the retry run |
| CSVService.Cells | src/main/kotlin/service/CSVService.kt:62 | a written line has six cells |
| CSVService.AppendKeys | src/main/kotlin/service/CSVService.kt:59-66 | the key set afterwards is the old set plus the keys of all given rows |
| CSVService.AppendWritesFirstNew | src/main/kotlin/service/CSVService.kt:59-66 | exactly the rows whose key is neither in the set nor in an earlier row are written, in order |
| CSVService.WrittenIff | src/main/kotlin/service/CSVService.kt:61 | row i is written iff its key is not in the set and no earlier row has it |
| CSVService.PredictionsDoNotMakeANewRow | src/main/kotlin/service/CSVService.kt:73 | records differing only in outcome, score or odds are duplicates |
| CSVService.ReadBackSameKey | src/main/kotlin/service/CSVService.kt:49-50 | a written line read back has the key of the record it came from |
| CSVService.AppendKeepsKeysInAgreement | src/main/kotlin/service/CSVService.kt:43-69 | if the key set agrees with the file, reloading the file after `appendRows` gives the new key set |
| CSVService.UpcomingIn | src/main/kotlin/service/CSVService.kt:95-112 | the kept lines are exactly the six-cell lines whose date parses strictly inside (now, now + 1 day) |
| CSVService.CsvStore.constructor | src/main/kotlin/service/CSVService.kt:29-41 | a missing file becomes the header line with no keys; an existing file is loaded with its keys; either way the key set agrees with the file |
| CSVService.CsvStore.LoadExistingMatchesHashes | src/main/kotlin/service/CSVService.kt:43-54 | adds the key of every six-cell line after the header |
| CSVService.CsvStore.AppendRows | src/main/kotlin/service/CSVService.kt:56-69 | key set and file become the append run's; a key set that agreed with the file still does |
| CSVService.CsvStore.GetUpcomingMatches | src/main/kotlin/service/CSVService.kt:87-115 | the records of the upcoming lines, in file order |
| CSVService.AppendedRowsExist | src/main/kotlin/service/CSVService.kt:82-85 | after `appendRows`, every given row's key is in the set (so `matchExists` holds) and no key was removed |
| KotlinText.LinesOfJoin | src/main/kotlin/service/HttpFootBallDataService.kt:62 | lines joined by "\n" split back into the same lines |
| KotlinText.TrimIndentOfLiteral | src/main/kotlin/FootballBot.kt:213-219 | a raw literal of indented one-line lines trims to those lines joined by "\n" |
| FootballBot.ResultEmoji | src/main/kotlin/FootballBot.kt:222-223 | ✅ exactly when predicted and actual outcome are equal, else ❌ |
| FootballBot.FormatMatchInfoLines | src/main/kotlin/FootballBot.kt:213-220 | the message is the four lines Match Time, Match Type, Teams and Predicted Outcome (null shown as "null") |
| FootballBot.ResultMessageJoined | src/main/kotlin/FootballBot.kt:221-231 | with one-line values, the result message is its five lines, unindented and joined by "\n" |
| FootballBot.FormatMatchInfoWithResultLines | src/main/kotlin/FootballBot.kt:221-231 | with one-line values, the result message is the match message plus "Actual Outcome: …" and the emoji; its last character is ✅ exactly for a correct prediction |
| FootballBot.HelpTexts | src/main/kotlin/FootballBot.kt:131-151 | others get the three common lines; the admin gets those followed by the three admin lines |
| FootballBot.AdminCommandsAreGated | src/main/kotlin/FootballBot.kt:86-112 | an admin command runs iff sent from the admin chat; otherwise it gets "This is a response to: " + text |
| FootballBot.OnlyAdminReachesAdminHandlers | src/main/kotlin/FootballBot.kt:86-95 | an admin handler is reached exactly for the three admin commands from the admin chat |
| FootballBot.CommonCommandsForEveryone | src/main/kotlin/FootballBot.kt:96-107 | every common command reaches its own handler from any chat; apart from help, the dispatch does not depend on the chat; help is told whether the chat is the admin's |
| FootballBot.OnUpdateReceived | src/main/kotlin/FootballBot.kt:74-115 | for a text message the user's activity is recorded and the command dispatched; without one nothing happens |
| FootballBot.HandleUserCount | src/main/kotlin/FootballBot.kt:166-169 | the reply names the number of distinct users |
| FootballBot.HandleActiveUserCount | src/main/kotlin/FootballBot.kt:170-173 | the reply names the number of distinct users active since the threshold |
| FootballBot.HandleUpcomingMatches | src/main/kotlin/FootballBot.kt:176-185 | one formatted message per upcoming match, or the single notice when there is none |
| FootballBot.ToInt | src/main/kotlin/FootballBot.kt:58 | a parsed id is in the 32-bit range |
| FootballBot.ToIntOfIntToString | src/main/kotlin/FootballBot.kt:58 | the text of an `Int` parses back to it |
| FootballBot.UpdateMessageSucceeds | src/main/kotlin/FootballBot.kt:54-72 | the edit counts as done iff the id parses and Telegram applied it or answered exactly "message is not modified…" |
| FootballBot.SetCommands | src/main/kotlin/FootballBot.kt:250-262 | the four common commands in order, then the three admin commands exactly when the admin chat id is non-empty |
| FootballBot.MenuCommandsAreHandled | src/main/kotlin/FootballBot.kt:252-260 | every menu command reaches its own handler from the admin chat, the common ones from any chat; the admin ones only from the admin chat |
| FootballBot.PostingChangesOnlyMessageIds | src/main/kotlin/FootballBot.kt:295-303 | posting keeps every row in place and changes at most its message id |
| FootballBot.FailedSendsStoreNothing | src/main/kotlin/FootballBot.kt:299-302 | when every send returns null, nothing is stored |
| FootballBot.PostMatches | src/main/kotlin/FootballBot.kt:295-303 | each match is posted with its formatted text, in order, and its returned id stored only when the send succeeded; the formatter is a parameter, given `FormatMatchInfo` by its caller |
| FootballBot.SendUpcomingMatchesToTelegram | src/main/kotlin/FootballBot.kt:291-305 | posts exactly the matches of the next 12 hours without a message id; a scan that throws ends the method (no result) with nothing posted and the store unchanged |
| HttpAPIFootballService.ActualOutcome | src/main/kotlin/service/HttpAPIFootballService.kt:157-161 | the home name if home won, else the away name if away won, else "Draw" |
| HttpAPIFootballService.ScoreRoundTrip | src/main/kotlin/service/HttpAPIFootballService.kt:163 | "home:away" reads back as both counts, a missing count being 0 |
| HttpAPIFootballService.FirstSuccess | src/main/kotlin/service/HttpAPIFootballService.kt:104-127 | the first attempt that succeeded, with all earlier ones failed, or 3 |
| HttpAPIFootballService.AttemptsStopAtFirstSuccess | src/main/kotlin/service/HttpAPIFootballService.kt:99-128 | one to three attempts; all but the last failed; fewer than three only when the last succeeded |
| HttpAPIFootballService.StoredFixtureOnlyRescheduled | src/main/kotlin/service/HttpAPIFootballService.kt:135-137 | a stored fixture gets only its datetime set; every row keeps everything else; it stays stored |
| HttpAPIFootballService.NewFixtureStoredWithPrediction | src/main/kotlin/service/HttpAPIFootballService.kt:95-120 | a new fixture with a prediction is appended once with the prediction's outcome, score and odds, its league listed and found as stored |
| HttpAPIFootballService.FailedFixtureDeleted | src/main/kotlin/service/HttpAPIFootballService.kt:130-134 | after three failures the league's table holds its former rows without that fixture id; the fixture is not stored |
| HttpAPIFootballService.RescheduledFixtureStoredTwice | src/main/kotlin/service/HttpAPIFootballService.kt:94-119 | a fixture stored under an older kickoff is inserted again, and afterwards the lookup by fixture id finds nothing |
| HttpAPIFootballService.ProcessFixture | src/main/kotlin/service/HttpAPIFootballService.kt:94-138 | the `while` loop leaves the store of one fixture step; no attempt for a stored fixture; otherwise the attempts up to the first success and one pause fewer |
| HttpAPIFootballService.FetchMatches | src/main/kotlin/service/HttpAPIFootballService.kt:55-141 | the store after all fixtures, taken in order |
| HttpAPIFootballService.PastRecordKeepsStoredFields | src/main/kotlin/service/HttpAPIFootballService.kt:155-194 | the record gets the result; a stored one keeps all other fields and its emoji is ✅ iff its prediction named the result; an edit is made iff there is a message id |
| HttpAPIFootballService.PastRunOnlyRecordsResults | src/main/kotlin/service/HttpAPIFootballService.kt:155-199 | recording results keeps every row in place, changes only actual outcome and score, and changes no match's existence |
| HttpAPIFootballService.FetchPastMatches | src/main/kotlin/service/HttpAPIFootballService.kt:144-201 | the edits asked for and the store are those of the results run |
| HttpAPIFootballService.LiveMatchInfo | src/main/kotlin/service/HttpAPIFootballService.kt:251-301 | null unless the fixture is stored and the API answered with a match; otherwise the stored record with only score, outcome (set only for FT, AET, PEN) and elapsed (default 0) changed |
| HttpAPIFootballService.GetLiveMatchInfo | src/main/kotlin/service/HttpAPIFootballService.kt:251-257 | the live state of the fixture stored under that id |
| HttpFootBallDataService.PromptLines | src/main/kotlin/service/HttpFootBallDataService.kt:62-64 | three prompt lines per match |
| HttpFootBallDataService.PromptTextIsJoinedLines | src/main/kotlin/service/HttpFootBallDataService.kt:62-64 | the prompt is all matches' lines joined by "\n"; no matches give the empty prompt |
| HttpFootBallDataService.PromptReadsBack | src/main/kotlin/service/HttpFootBallDataService.kt:62-64 | with one-line values, the prompt splits into exactly those lines |
| HttpFootBallDataService.PromptLinesAt | src/main/kotlin/service/HttpFootBallDataService.kt:62-64 | lines 3k to 3k+2 describe the k-th match, in API order |
| HttpFootBallDataService.IsMatchInFile | src/main/kotlin/service/HttpFootBallDataService.kt:92-95 | true iff an upcoming line of the file has equal teams and datetime |
| HttpFootBallDataService.CollectNewMatches | src/main/kotlin/service/HttpFootBallDataService.kt:67-74 | the loop collects exactly the predictions not in the file, in order |
| HttpFootBallDataService.OnResponse | src/main/kotlin/service/HttpFootBallDataService.kt:56-89 | a failed or unsuccessful request, or a body without matches, changes nothing; otherwise the prompt is sent; a prediction request that throws aborts the callback with nothing written; otherwise the new matches are appended only when there are any |
| HttpFootBallDataService.NewMatchesAreExactlyTheUnseen | src/main/kotlin/service/HttpFootBallDataService.kt:66-74 | a prediction is appended iff it is returned and not in the file; none of them is stored in the database |

## Left out

- HTTP and Telegram calls: the replies from ChatGPT, API-Football, football-data.org and Telegram are oracle parameters. So are Ktor, Retrofit, OkHttp, the `execute` calls, `getMatchPredictionsFromChatGPT`'s prompt wording, and the per-fixture `ChatGPTService.getMatchPrediction`, which is not part of this model.
- SQLite and Exposed: tables are an in-memory map, and a missing table is empty. The "no such table" recovery paths and `initDatabase` are left out.
- Timing and concurrency: coroutines, `runBlocking`, `enqueue` and sleeps. The pauses of the two retry loops are counted; the 10-second sleep in `fetchPastMatches` is not.
- Floating point: accuracy is an exact rational. The `"%.2f"` messages are left out: `sendPredictionAccuracyMessage`, `sendWeeklyPredictionAccuracyMessage` and `sendMonthlyPredictionAccuracyMessage`. So is `handleTopMatchCommand`, which parses odds as doubles.
- Calendar arithmetic: `getDaysInLastMonth` is left out; the day count is a parameter of `GetCorrectPredictionsForPeriod`.
- `handleStartCommand` and `handleGetDatabaseCommand`: a constant welcome text and a file upload. Dispatch reaching them is modelled; their output is not.
- Dates and time zones: dates are parsed by a given function. The UTC to UTC+3 shift, the ISO to "yyyy-MM-dd HH:mm" formatting (`format`) and the "now" clock are parameters. In `fetchMatches`, an `OffsetDateTime.parse` failure would abort the whole run; this is not modelled.
- Hashing and normalisation: SHA-256 and NFD mark removal are given functions, and no injectivity is assumed. Reading the file back assumes only that normalising twice equals normalising once.
- CSV quoting and encoding: a file is a list of lines of cells.
- The football-data response: `FdMatch` holds the fields the callback reads (`utcDate`, competition, team names). `dto/MatchResponse.kt` is an older shape without them.
- The HTTP requests of `getUpcomingMatches` and `getPastMatches`, and the per-league loop over the configuration: `FetchMatches` and `FetchPastMatches` take the fixtures the API returned, in order.
- DatabaseService.TableName: only the ASCII letters A–Z are lower-cased. Kotlin's `toLowerCase()` follows the default locale and the Unicode case mappings: it lower-cases every cased letter and can change the length ("İ" becomes two characters). So the length clause and `TableNameIdempotent` hold for ASCII league names only.
- FootballBot.ToInt: accepts ASCII digits only, while Kotlin's `toInt` also accepts other Unicode decimal digits.
- FootballBot.HandleUpcomingMatches: a scan that throws is modelled as sending nothing; in the code the exception leaves `onUpdateReceived`.
- FootballBot.FormatMatchInfoLines: the line-by-line reading is stated for values without line breaks; other values are covered only by the `trimIndent` definition itself.
- FootballBot.FormatMatchInfoWithResultLines: the equality with the match message plus the result line, and the ✅ at the end, are stated for values without line breaks; a multi-line value changes the common indent that `trimIndent` removes.
- Help texts: `commonCommands` and `adminCommands` are written in their trimmed form. The general lemma `KotlinText.TrimIndentOfLiteral` covers what `trimIndent` does to such a literal, but it is not applied to these two, because checking every character of the six lines is too costly for the solver.
- HttpFootBallDataService.PromptReadsBack: stated for a non-empty list of matches with one-line values; an empty list gives the empty prompt.
- DatabaseService.Database.GetMatchesWithoutMessageIdForNext12Hours: its body is not part of this model. The window (next 12 hours, no message id) is taken from the names at its call site.
- DatabaseService.Database.GetCorrectPredictionsForPeriod: its body is not part of this model; it is taken to be the 24-hour report over `days` days.
