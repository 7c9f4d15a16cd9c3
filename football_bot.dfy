/** `FootballBot.kt`: command dispatch with the admin gate, the help texts,
    the match messages and their result emoji, the classification of edit
    failures, the command menu, and posting upcoming matches to the channel.
    Telegram calls are oracles given as parameters. */
module FootballBot {
  import opened Common
  import opened Dto
  import opened DatabaseService
  import opened KotlinText

  /** Twelve spaces: the indentation of the literal lines in the bot's source. */
  const Body12: string := "            "
  /** Eight spaces: the indentation of the closing quotes. */
  const Close8: string := "        "

  /* ------------------------------------------------------------ messages */

  /** The four lines of `formatMatchInfo`. */
  function InfoLines(m: MatchInfo): seq<string> {
    ["Match Time: " + m.datetime, "Match Type: " + m.matchType, "Teams: " + m.teams,
     "Predicted Outcome: " + Show(m.predictedOutcome)]
  }

  /** `formatMatchInfo`: the raw template with the values filled in, then trimmed. */
  function FormatMatchInfo(m: MatchInfo): string {
    TrimIndent("\n" + Indented(InfoLines(m), Body12) + Close8)
  }

  const Check: char := '\U{2705}'
  const Cross: char := '\U{274C}'

  /** ✅ for a correct prediction, ❌ otherwise; null equals null. */
  function ResultEmoji(m: MatchInfo): (e: char)
    ensures e == Check <==> m.predictedOutcome == m.actualOutcome
    ensures e == Cross <==> m.predictedOutcome != m.actualOutcome
  {
    if m.predictedOutcome == m.actualOutcome then Check else Cross
  }

  function ResultLines(m: MatchInfo): seq<string> {
    InfoLines(m) + ["Actual Outcome: " + Show(m.actualOutcome) + [ResultEmoji(m)]]
  }

  /** `formatMatchInfoWithResult`. */
  function FormatMatchInfoWithResult(m: MatchInfo): string {
    TrimIndent("\n" + Indented(ResultLines(m), Body12) + Close8)
  }

  /** The values the messages show contain no line break. */
  predicate OneLineFields(m: MatchInfo) {
    NoLineBreak(m.datetime) && NoLineBreak(m.matchType) && NoLineBreak(m.teams)
    && NoLineBreak(Show(m.predictedOutcome)) && NoLineBreak(Show(m.actualOutcome))
  }

  lemma InfoLinesPlain(m: MatchInfo)
    requires OneLineFields(m)
    ensures PlainLines(InfoLines(m)) && PlainLines(ResultLines(m))
  {
    ConcatNoLineBreak("Match Time: ", m.datetime);
    ConcatNoLineBreak("Match Type: ", m.matchType);
    ConcatNoLineBreak("Teams: ", m.teams);
    ConcatNoLineBreak("Predicted Outcome: ", Show(m.predictedOutcome));
    ConcatNoLineBreak("Actual Outcome: ", Show(m.actualOutcome));
    ConcatNoLineBreak("Actual Outcome: " + Show(m.actualOutcome), [ResultEmoji(m)]);
    assert ("Match Time: " + m.datetime)[0] == 'M';
    assert ("Match Type: " + m.matchType)[0] == 'M';
    assert ("Teams: " + m.teams)[0] == 'T';
    assert ("Predicted Outcome: " + Show(m.predictedOutcome))[0] == 'P';
    assert ("Actual Outcome: " + Show(m.actualOutcome) + [ResultEmoji(m)])[0] == 'A';
  }

  /** With one-line values, the message is the four lines "Match Time",
      "Match Type", "Teams" and "Predicted Outcome", unindented and joined
      by "\n". */
  lemma FormatMatchInfoLines(m: MatchInfo)
    requires OneLineFields(m)
    ensures FormatMatchInfo(m) == Join(InfoLines(m), "\n")
  {
    InfoLinesPlain(m);
    assert IsBlank(Body12) && NoLineBreak(Body12) && IsBlank(Close8) && NoLineBreak(Close8);
    TrimIndentOfLiteral(InfoLines(m), Body12, Close8);
  }

  /** With one-line values, the result message is the match message plus an
      "Actual Outcome" line ending in the emoji, which is ✅ exactly when
      the predicted outcome equals the actual one. */
  lemma FormatMatchInfoWithResultLines(m: MatchInfo)
    requires OneLineFields(m)
    ensures FormatMatchInfoWithResult(m) ==
      FormatMatchInfo(m) + "\nActual Outcome: " + Show(m.actualOutcome) + [ResultEmoji(m)]
    ensures FormatMatchInfoWithResult(m)[|FormatMatchInfoWithResult(m)| - 1] == Check <==>
      m.predictedOutcome == m.actualOutcome
  {
    FormatMatchInfoLines(m);
    ResultMessageJoined(m);
    var last := "Actual Outcome: " + Show(m.actualOutcome) + [ResultEmoji(m)];
    JoinAppend(InfoLines(m), [last]);
    assert Join([last], "\n") == last;
    assert Join(InfoLines(m), "\n") + "\n" + last ==
      Join(InfoLines(m), "\n") + "\nActual Outcome: " + Show(m.actualOutcome) + [ResultEmoji(m)];
  }

  /** With one-line values, the result message is its lines joined by "\n". */
  lemma ResultMessageJoined(m: MatchInfo)
    requires OneLineFields(m)
    ensures FormatMatchInfoWithResult(m) == Join(ResultLines(m), "\n")
  {
    InfoLinesPlain(m);
    assert IsBlank(Body12) && NoLineBreak(Body12) && IsBlank(Close8) && NoLineBreak(Close8);
    TrimIndentOfLiteral(ResultLines(m), Body12, Close8);
  }

  /* ---------------------------------------------------------------- help */

  const CommonHelpLines: seq<string> := [
    "/start - Start the bot and get information about it",
    "/upcomingmatches - Get upcoming matches within the next 24 hours",
    "/topmatch - Get the top match"]

  const AdminHelpLines: seq<string> := [
    "/getdatabase - Get the database file",
    "/usercount - Get the count of unique users",
    "/activeusercount - Get the count of unique users active last day"]

  /** `commonCommands` after `trimIndent`. The source writes it as a raw
      literal whose lines sit behind 12 spaces; `TrimIndentOfLiteral` shows
      that trimming such a literal leaves exactly these lines joined, so the
      text is written here in its trimmed form. */
  function CommonHelp(): string {
    Join(CommonHelpLines, "\n")
  }

  /** `adminCommands`, likewise. */
  function AdminHelp(): string {
    Join(AdminHelpLines, "\n")
  }

  /** `handleHelpCommand`'s reply. */
  function HelpText(isAdmin: bool): string {
    if isAdmin then CommonHelp() + "\n" + AdminHelp() else CommonHelp()
  }

  /** Everyone gets the three common lines; an admin gets the same three
      lines followed by the three admin lines. */
  lemma HelpTexts()
    ensures HelpText(false) == Join(CommonHelpLines, "\n")
    ensures HelpText(true) == Join(CommonHelpLines + AdminHelpLines, "\n")
    ensures |CommonHelpLines + AdminHelpLines| == 6
  {
    JoinAppend(CommonHelpLines, AdminHelpLines);
  }

  /* ------------------------------------------------------------ dispatch */

  /** The handler `onUpdateReceived` chooses. */
  datatype Command =
    | GetDatabase | UserCount | ActiveUserCount
    | UpcomingMatches | TopMatch | Start | Help(isAdmin: bool)
    | Echo(reply: string)

  predicate IsAdminCommand(c: Command) {
    c.GetDatabase? || c.UserCount? || c.ActiveUserCount?
  }

  /** `processMessage`. */
  function EchoText(text: string): string {
    "This is a response to: " + text
  }

  /** The `when` of `onUpdateReceived`, first match wins. */
  function Dispatch(chatId: string, adminChatId: string, text: string): Command {
    if chatId == adminChatId && text == "/getdatabase" then GetDatabase
    else if chatId == adminChatId && text == "/usercount" then UserCount
    else if chatId == adminChatId && text == "/activeusercount" then ActiveUserCount
    else if text == "/upcomingmatches" then UpcomingMatches
    else if text == "/topmatch" then TopMatch
    else if text == "/start" then Start
    else if text == "/help" then Help(chatId == adminChatId)
    else Echo(EchoText(text))
  }

  const AdminCommandNames: seq<string> := ["/getdatabase", "/usercount", "/activeusercount"]
  const CommonCommandNames: seq<string> := ["/upcomingmatches", "/topmatch", "/start", "/help"]

  /** An admin command runs exactly when it comes from the admin chat;
      from any other chat it is answered like ordinary text. */
  lemma AdminCommandsAreGated(chatId: string, adminChatId: string, text: string)
    requires text in AdminCommandNames
    ensures IsAdminCommand(Dispatch(chatId, adminChatId, text)) <==> chatId == adminChatId
    ensures chatId != adminChatId ==> Dispatch(chatId, adminChatId, text) == Echo(EchoText(text))
  {
  }

  /** Nothing but the three admin commands from the admin chat reaches an admin handler. */
  lemma OnlyAdminReachesAdminHandlers(chatId: string, adminChatId: string, text: string)
    ensures IsAdminCommand(Dispatch(chatId, adminChatId, text)) <==>
      chatId == adminChatId && text in AdminCommandNames
  {
  }

  /** The handler each command name of the menu stands for; help is told
      whether the chat is the admin's. */
  function Handler(name: string, isAdmin: bool): Option<Command> {
    if name == "/getdatabase" then Some(GetDatabase)
    else if name == "/usercount" then Some(UserCount)
    else if name == "/activeusercount" then Some(ActiveUserCount)
    else if name == "/upcomingmatches" then Some(UpcomingMatches)
    else if name == "/topmatch" then Some(TopMatch)
    else if name == "/start" then Some(Start)
    else if name == "/help" then Some(Help(isAdmin))
    else None
  }

  /** The other commands reach their own handlers from any chat: their
      dispatch does not depend on the chat, except that help tells whether
      the chat is the admin's. */
  lemma CommonCommandsForEveryone(chatId: string, adminChatId: string, text: string)
    requires text in CommonCommandNames
    ensures Handler(text, chatId == adminChatId) == Some(Dispatch(chatId, adminChatId, text))
    ensures !IsAdminCommand(Dispatch(chatId, adminChatId, text)) && !Dispatch(chatId, adminChatId, text).Echo?
    ensures text != "/help" ==> Dispatch(chatId, adminChatId, text) == Dispatch(adminChatId, adminChatId, text)
    ensures Dispatch(chatId, adminChatId, text).Help? ==> Dispatch(chatId, adminChatId, text).isAdmin == (chatId == adminChatId)
  {
  }

  /** The text message of an update, when it has one. */
  datatype TextMessage = TextMessage(text: string, chatId: string, userId: string,
                                     firstName: Option<string>, lastName: Option<string>, username: Option<string>)

  /** `onUpdateReceived`: the user's activity is recorded for every text
      message, before the command is chosen. */
  method OnUpdateReceived(db: Database, adminChatId: string, update: Option<TextMessage>, now: string)
    returns (command: Option<Command>)
    requires db.Valid()
    modifies db
    ensures db.Valid()
    ensures update.None? ==> command.None? && db.users == old(db.users)
    ensures update.Some? ==>
      var msg := update.value;
      db.users == AddUser(old(db.users), msg.userId, msg.firstName, msg.lastName, msg.username, now)
      && command == Some(Dispatch(msg.chatId, adminChatId, msg.text))
    ensures db.tables == old(db.tables) && db.leagues == old(db.leagues)
  {
    if update.None? {
      return None;
    }
    var msg := update.value;
    db.AddUserActivity(msg.userId, msg.firstName, msg.lastName, msg.username, now);
    command := Some(Dispatch(msg.chatId, adminChatId, msg.text));
  }

  /** `handleUserCountCommand`'s reply. */
  method HandleUserCount(db: Database) returns (reply: string)
    requires db.Valid()
    ensures reply == "Number of unique users: " + NatToString(|UserIds(db.users, (u: UserRow) => true)|)
  {
    var n := db.GetUserCount();
    reply := "Number of unique users: " + NatToString(n);
  }

  /** `handleActiveUserCountCommand`'s reply. */
  method HandleActiveUserCount(db: Database, threshold: string) returns (reply: string)
    requires db.Valid()
    ensures reply == "Number of unique users for last day: "
      + NatToString(|UserIds(db.users, (u: UserRow) => !LexLess(u.lastActivity, threshold))|)
  {
    var n := db.GetActiveUserCountLast24Hours(threshold);
    reply := "Number of unique users for last day: " + NatToString(n);
  }

  /** `handleUpcomingMatchesCommand`: one message per upcoming match, or a
      single notice when there is none; a failing scan sends nothing. */
  method HandleUpcomingMatches(db: Database, now: int, parse: string -> Option<int>) returns (replies: seq<string>)
    ensures WindowScan(db.tables, db.leagues, now, now + Day, parse).None? ==> replies == []
    ensures WindowScan(db.tables, db.leagues, now, now + Day, parse).Some? ==>
      var ms := WindowScan(db.tables, db.leagues, now, now + Day, parse).value;
      if ms == [] then replies == ["No upcoming matches within the next 24 hours."]
      else |replies| == |ms| && forall i :: 0 <= i < |ms| ==> replies[i] == FormatMatchInfo(ms[i])
  {
    var scanned := db.GetUpcomingMatches(now, parse);
    if scanned.None? {
      return [];
    }
    var ms := scanned.value;
    if ms == [] {
      return ["No upcoming matches within the next 24 hours."];
    }
    replies := seq(|ms|, i requires 0 <= i < |ms| => FormatMatchInfo(ms[i]));
  }

  /* ---------------------------------------------------------- edit result */

  /** What Telegram answers to an edit: success, a request exception with
      its (nullable) API response, or any other exception. */
  datatype EditResponse = Edited | Rejected(apiResponse: Option<string>) | Failed

  /** How `updateMessage` ends: it never throws, it only logs. */
  datatype EditOutcome = Updated | AlreadyUpToDate | EditFailed

  const NotModified: string :=
    "Bad Request: message is not modified: specified new message content and reply markup are exactly the same as a current content and reply markup of the message"

  /** Kotlin's `String.toInt()` on ASCII text: an optional sign, digits, and
      the 32-bit range; anything else throws. */
  function ToInt(s: string): (r: Option<int>)
    ensures r.Some? ==> -0x8000_0000 <= r.value < 0x8000_0000
  {
    var v := if |s| > 1 && s[0] == '+' then
        (match ParseNat(s[1..]) case None => None case Some(n) => Some(n as int))
      else ParseInt(s);
    if v.Some? && -0x8000_0000 <= v.value < 0x8000_0000 then v else None
  }

  /** A message id stored as an `Int`'s text reads back as that `Int`. */
  lemma ToIntOfIntToString(i: int)
    requires -0x8000_0000 <= i < 0x8000_0000
    ensures ToInt(IntToString(i)) == Some(i)
  {
    ParseIntToString(i);
    if i >= 0 {
      assert IntToString(i)[0] != '+';
    }
  }

  /** `updateMessage`: a message id that is not a number fails like any
      other exception; the exact "not modified" answer counts as done. */
  function UpdateMessage(messageId: string, edit: int -> EditResponse): EditOutcome {
    match ToInt(messageId)
    case None => EditFailed
    case Some(id) =>
      match edit(id)
      case Edited => Updated
      case Rejected(response) => if response == Some(NotModified) then AlreadyUpToDate else EditFailed
      case Failed => EditFailed
  }

  /** The edit counts as done exactly when the id parses and Telegram either
      applied it or answered precisely that the content was unchanged. */
  lemma UpdateMessageSucceeds(messageId: string, edit: int -> EditResponse)
    ensures UpdateMessage(messageId, edit) != EditFailed <==>
      ToInt(messageId).Some?
      && (edit(ToInt(messageId).value) == Edited || edit(ToInt(messageId).value) == Rejected(Some(NotModified)))
    ensures UpdateMessage(messageId, edit) == AlreadyUpToDate <==>
      ToInt(messageId).Some? && edit(ToInt(messageId).value) == Rejected(Some(NotModified))
  {
  }

  /* -------------------------------------------------------------- commands */

  datatype BotCommand = BotCommand(command: string, description: string)

  const CommonMenu: seq<BotCommand> := [
    BotCommand("/start", "Start the bot and get information about it"),
    BotCommand("/upcomingmatches", "Get upcoming matches within the next 24 hours"),
    BotCommand("/topmatch", "Get the top match based on odds"),
    BotCommand("/help", "Get the list of available commands")]

  const AdminMenu: seq<BotCommand> := [
    BotCommand("/getdatabase", "Get the database file"),
    BotCommand("/usercount", "Get the count of unique users"),
    BotCommand("/activeusercount", "Get the count of unique users active last day")]

  /** `setCommands`: the list handed to Telegram. */
  method SetCommands(adminChatId: string) returns (commands: seq<BotCommand>)
    ensures |commands| == if adminChatId != [] then 7 else 4
    ensures commands[..4] == CommonMenu
    ensures adminChatId != [] ==> commands[4..] == AdminMenu
  {
    commands := [];
    commands := commands + [BotCommand("/start", "Start the bot and get information about it")];
    commands := commands + [BotCommand("/upcomingmatches", "Get upcoming matches within the next 24 hours")];
    commands := commands + [BotCommand("/topmatch", "Get the top match based on odds")];
    commands := commands + [BotCommand("/help", "Get the list of available commands")];
    if adminChatId != [] {
      commands := commands + [BotCommand("/getdatabase", "Get the database file")];
      commands := commands + [BotCommand("/usercount", "Get the count of unique users")];
      commands := commands + [BotCommand("/activeusercount", "Get the count of unique users active last day")];
    }
  }

  /** Every command in the menu reaches its own handler from the admin
      chat, and the admin part of the menu is only answered there. */
  lemma MenuCommandsAreHandled(adminChatId: string, chatId: string, c: BotCommand)
    requires c in CommonMenu + AdminMenu
    ensures Handler(c.command, true) == Some(Dispatch(adminChatId, adminChatId, c.command))
    ensures c in CommonMenu ==> Handler(c.command, chatId == adminChatId) == Some(Dispatch(chatId, adminChatId, c.command))
    ensures !Dispatch(adminChatId, adminChatId, c.command).Echo?
    ensures c in AdminMenu ==> (IsAdminCommand(Dispatch(chatId, adminChatId, c.command)) <==> chatId == adminChatId)
  {
  }

  /* --------------------------------------------- posting upcoming matches */

  /** The record `updateMatchMessageId` is given after a successful send. */
  function WithMessageId(m: MatchInfo, id: int): MatchInfo {
    m.(telegramMessageId := Some(IntToString(id)))
  }

  /** The tables after posting `ms` in order, where `send(i)` is the id
      Telegram returned for the i-th post, or null. */
  function PostRun(t: Tables, ms: seq<MatchInfo>, send: nat -> Option<int>): Tables
    decreases |ms|
  {
    if ms == [] then t
    else
      var before := PostRun(t, ms[..|ms| - 1], send);
      match send(|ms| - 1)
      case None => before
      case Some(id) => UpdateMessageIdIn(before, WithMessageId(ms[|ms| - 1], id))
  }

  /** Posting changes nothing but message ids: every table keeps its rows in
      place, each differing at most in `telegramMessageId`. */
  lemma {:induction false} PostingChangesOnlyMessageIds(t: Tables, ms: seq<MatchInfo>, send: nat -> Option<int>, name: string)
    ensures |Rows(PostRun(t, ms, send), name)| == |Rows(t, name)|
    ensures forall i :: 0 <= i < |Rows(t, name)| ==>
      Rows(t, name)[i].(telegramMessageId := Rows(PostRun(t, ms, send), name)[i].telegramMessageId)
        == Rows(PostRun(t, ms, send), name)[i]
    decreases |ms|
  {
    if ms != [] {
      var before := PostRun(t, ms[..|ms| - 1], send);
      PostingChangesOnlyMessageIds(t, ms[..|ms| - 1], send, name);
      match send(|ms| - 1)
      case None =>
      case Some(id) =>
        UpdateMessageIdRestricted(before, WithMessageId(ms[|ms| - 1], id), name);
    }
  }

  /** A send that returned null stores nothing: with every send failing,
      the tables are unchanged. */
  lemma {:induction false} FailedSendsStoreNothing(t: Tables, ms: seq<MatchInfo>, send: nat -> Option<int>)
    requires forall i :: 0 <= i < |ms| ==> send(i).None?
    ensures PostRun(t, ms, send) == t
    decreases |ms|
  {
    if ms != [] {
      FailedSendsStoreNothing(t, ms[..|ms| - 1], send);
    }
  }

  /** The loop of `sendUpcomingMatchesToTelegram`: posts the text `format`
      gives for each match and stores the returned id for each post that
      succeeded. */
  method PostMatches(db: Database, ms: seq<MatchInfo>, format: MatchInfo -> string, send: nat -> Option<int>)
    returns (posted: seq<string>)
    requires db.Valid()
    modifies db
    ensures db.Valid()
    ensures db.leagues == old(db.leagues) && db.users == old(db.users)
    ensures db.tables == PostRun(old(db.tables), ms, send)
    ensures |posted| == |ms| && forall i :: 0 <= i < |ms| ==> posted[i] == format(ms[i])
  {
    posted := [];
    var i := 0;
    while i < |ms|
      invariant 0 <= i <= |ms|
      invariant db.Valid()
      invariant db.leagues == old(db.leagues) && db.users == old(db.users)
      invariant db.tables == PostRun(old(db.tables), ms[..i], send)
      invariant |posted| == i && forall j :: 0 <= j < i ==> posted[j] == format(ms[j])
    {
      PostRunStep(old(db.tables), ms, send, i);
      posted := posted + [format(ms[i])];
      var id := send(i);
      if id.Some? {
        db.UpdateMatchMessageId(WithMessageId(ms[i], id.value));
      }
      i := i + 1;
    }
    assert ms[..i] == ms;
  }

  lemma PostRunStep(t: Tables, ms: seq<MatchInfo>, send: nat -> Option<int>, i: nat)
    requires i < |ms|
    ensures PostRun(t, ms[..i + 1], send) ==
      match send(i)
      case None => PostRun(t, ms[..i], send)
      case Some(id) => UpdateMessageIdIn(PostRun(t, ms[..i], send), WithMessageId(ms[i], id))
  {
    assert ms[..i + 1][..i] == ms[..i];
  }

  /** The matches `sendUpcomingMatchesToTelegram` posts: those of the next
      12 hours without a message, or `None` when the scan throws. */
  function Unposted(t: Tables, leagues: seq<string>, now: int, parse: string -> Option<int>): Option<seq<MatchInfo>> {
    var scan := WindowScan(t, leagues, now, now + HalfDay, parse);
    if scan.None? then None else Some(Filter(scan.value, (m: MatchInfo) => m.telegramMessageId.None?))
  }

  /** `sendUpcomingMatchesToTelegram`. A scan that throws leaves the method
      with the exception before anything is posted: `None`. */
  method SendUpcomingMatchesToTelegram(db: Database, now: int, parse: string -> Option<int>, send: nat -> Option<int>)
    returns (posted: Option<seq<string>>)
    requires db.Valid()
    modifies db
    ensures db.Valid()
    ensures db.leagues == old(db.leagues) && db.users == old(db.users)
    ensures posted.None? <==> Unposted(old(db.tables), db.leagues, now, parse).None?
    ensures posted.None? ==> db.tables == old(db.tables)
    ensures posted.Some? ==>
      var ms := Unposted(old(db.tables), db.leagues, now, parse).value;
      db.tables == PostRun(old(db.tables), ms, send)
      && |posted.value| == |ms| && forall i :: 0 <= i < |ms| ==> posted.value[i] == FormatMatchInfo(ms[i])
  {
    var found := db.GetMatchesWithoutMessageIdForNext12Hours(now, parse);
    if found.None? {
      return None;
    }
    var texts := PostMatches(db, found.value, FormatMatchInfo, send);
    posted := Some(texts);
  }

}
