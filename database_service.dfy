/** The SQLite store of `DatabaseService.kt`: one table of match rows per
    league, the in-memory list of leagues that have been written to, and the
    user-activity table. Tables are kept in memory, keyed by their derived
    table name; a table that does not exist yet reads as empty, just as the
    source creates it on first touch. Timestamps are seconds. */
module DatabaseService {
  import opened Common
  import opened Dto

  type Tables = map<string, seq<MatchInfo>>

  const HalfDay: int := 43200

  /* ---------------------------------------------------------------- tables */

  /** `Char.lowercase()` on the ASCII letters; other characters are kept. */
  function ToLowerAscii(c: char): char {
    if 'A' <= c <= 'Z' then (c as int + 32) as char else c
  }

  /** The table name of a league: spaces become '_', then lower case. */
  function TableName(league: string): (name: string)
    ensures |name| == |league|
    ensures forall i :: 0 <= i < |name| ==> name[i] != ' ' && !('A' <= name[i] <= 'Z')
  {
    seq(|league|, i requires 0 <= i < |league| =>
      ToLowerAscii(if league[i] == ' ' then '_' else league[i]))
  }

  /** Deriving a table name twice changes nothing: a table name is its own table name. */
  lemma TableNameIdempotent(league: string)
    ensures TableName(TableName(league)) == TableName(league)
  {
  }

  /** Distinct league names can share one table, since the derivation forgets
      case and the difference between ' ' and '_'. */
  lemma LeaguesCanShareTable()
    ensures "Premier League" != "premier_league"
    ensures TableName("Premier League") == TableName("premier_league")
  {
  }

  /** `LeagueTableFactory`: a cache from league name to its table. */
  class LeagueTableFactory {
    var tables: map<string, string>

    ghost predicate Valid()
      reads this
    {
      forall league :: league in tables ==> tables[league] == TableName(league)
    }

    constructor ()
      ensures Valid() && tables == map[]
    {
      tables := map[];
    }

    /** `getOrPut`: the cached table, or a new one that is cached. */
    method GetTableForLeague(league: string) returns (name: string)
      requires Valid()
      modifies this
      ensures Valid()
      ensures name == TableName(league)
      ensures tables == old(tables)[league := name]
    {
      if league !in tables {
        tables := tables[league := TableName(league)];
      }
      name := tables[league];
    }
  }

  function Rows(t: Tables, name: string): seq<MatchInfo> {
    if name in t then t[name] else []
  }

  function LeagueRows(t: Tables, league: string): seq<MatchInfo> {
    Rows(t, TableName(league))
  }

  /** The rows of the listed leagues' tables, league by league in list order. */
  function ListedRows(t: Tables, leagues: seq<string>): (rows: seq<MatchInfo>)
    ensures forall r :: r in rows <==> exists l :: l in leagues && r in LeagueRows(t, l)
    decreases |leagues|
  {
    if leagues == [] then []
    else ListedRows(t, leagues[..|leagues| - 1]) + LeagueRows(t, leagues[|leagues| - 1])
  }

  /** The key `matchExists` and the result and message-id updates select on. */
  predicate SameMatch(row: MatchInfo, m: MatchInfo) {
    row.datetime == m.datetime && row.teams == m.teams
  }

  /** `matchExists`: the league table has a row with this datetime and teams. */
  predicate ExistsIn(t: Tables, m: MatchInfo) {
    exists row :: row in LeagueRows(t, m.matchType) && SameMatch(row, m)
  }

  /** A store with no tables holds no match. */
  lemma NothingExistsInEmptyStore(m: MatchInfo)
    ensures !ExistsIn(map[], m)
  {
  }

  /* --------------------------------------------------------------- inserts */

  /** The row `appendRows` inserts: null odds are stored as "". */
  function Stored(m: MatchInfo): MatchInfo {
    m.(odds := Some(m.odds.GetOr("")))
  }

  function Insert(t: Tables, m: MatchInfo): Tables {
    t[TableName(m.matchType) := LeagueRows(t, m.matchType) + [Stored(m)]]
  }

  /** Adding to `listOfLeagues`, an insertion-ordered set. */
  function AddLeague(leagues: seq<string>, league: string): seq<string> {
    if league in leagues then leagues else leagues + [league]
  }

  function AppendAll(t: Tables, ms: seq<MatchInfo>): Tables
    decreases |ms|
  {
    if ms == [] then t else Insert(AppendAll(t, ms[..|ms| - 1]), ms[|ms| - 1])
  }

  function AddLeagues(leagues: seq<string>, ms: seq<MatchInfo>): seq<string>
    decreases |ms|
  {
    if ms == [] then leagues else AddLeague(AddLeagues(leagues, ms[..|ms| - 1]), ms[|ms| - 1].matchType)
  }

  /** The stored forms of those matches of `ms` that belong to table `name`, in order. */
  function StoredFor(ms: seq<MatchInfo>, name: string): seq<MatchInfo>
    decreases |ms|
  {
    if ms == [] then []
    else
      var last := ms[|ms| - 1];
      StoredFor(ms[..|ms| - 1], name) + (if TableName(last.matchType) == name then [Stored(last)] else [])
  }

  /** `appendRows` adds exactly one row per match, at the end of that match's
      table and in input order; every other table keeps its rows. */
  lemma {:induction false} AppendAllRows(t: Tables, ms: seq<MatchInfo>, name: string)
    ensures Rows(AppendAll(t, ms), name) == Rows(t, name) + StoredFor(ms, name)
    decreases |ms|
  {
    if ms != [] {
      AppendAllRows(t, ms[..|ms| - 1], name);
    }
  }

  lemma {:induction false} StoredForHas(ms: seq<MatchInfo>, m: MatchInfo)
    requires m in ms
    ensures Stored(m) in StoredFor(ms, TableName(m.matchType))
    decreases |ms|
  {
    if ms[|ms| - 1] != m {
      assert m in ms[..|ms| - 1];
      StoredForHas(ms[..|ms| - 1], m);
    }
  }

  /** After `appendRows`, `matchExists` holds for every match it was given. */
  lemma AppendedMatchesExist(t: Tables, ms: seq<MatchInfo>)
    ensures forall m :: m in ms ==> ExistsIn(AppendAll(t, ms), m)
  {
    forall m | m in ms
      ensures ExistsIn(AppendAll(t, ms), m)
    {
      AppendAllRows(t, ms, TableName(m.matchType));
      StoredForHas(ms, m);
      assert Stored(m) in LeagueRows(AppendAll(t, ms), m.matchType);
    }
  }

  /** `listOfLeagues` after `appendRows`: the old leagues followed by the new
      ones, each listed once. */
  lemma {:induction false} AddLeaguesSpec(leagues: seq<string>, ms: seq<MatchInfo>)
    requires NoDuplicates(leagues)
    ensures NoDuplicates(AddLeagues(leagues, ms))
    ensures leagues <= AddLeagues(leagues, ms)
    ensures forall l :: l in AddLeagues(leagues, ms) <==> l in leagues || exists m :: m in ms && m.matchType == l
    decreases |ms|
  {
    if ms != [] {
      var init := ms[..|ms| - 1];
      AddLeaguesSpec(leagues, init);
      forall l | l in AddLeagues(leagues, ms)
        ensures l in leagues || exists m :: m in ms && m.matchType == l
      {
        if l !in AddLeagues(leagues, init) {
          assert ms[|ms| - 1] in ms;
        } else if l !in leagues {
          var m :| m in init && m.matchType == l;
          assert m in ms;
        }
      }
      forall l | l in leagues || exists m :: m in ms && m.matchType == l
        ensures l in AddLeagues(leagues, ms)
      {
        if l !in leagues {
          var m :| m in ms && m.matchType == l;
          if m != ms[|ms| - 1] {
            assert m in init;
          }
        }
      }
    }
  }

  predicate NoDuplicates<T(==)>(s: seq<T>) {
    forall i, j :: 0 <= i < j < |s| ==> s[i] != s[j]
  }

  /* --------------------------------------------------------------- updates */

  /** Replaces each row that satisfies `where` by `change` of it. */
  function UpdateWhere(rows: seq<MatchInfo>, where: MatchInfo -> bool, change: MatchInfo -> MatchInfo): (r: seq<MatchInfo>)
    ensures |r| == |rows|
    ensures forall i :: 0 <= i < |rows| ==> r[i] == if where(rows[i]) then change(rows[i]) else rows[i]
  {
    seq(|rows|, i requires 0 <= i < |rows| => if where(rows[i]) then change(rows[i]) else rows[i])
  }

  /** `updateMatchResult`: the actual outcome and score of the rows with this
      datetime and teams. */
  function UpdateResultIn(t: Tables, m: MatchInfo): Tables {
    t[TableName(m.matchType) := UpdateWhere(LeagueRows(t, m.matchType),
      (row: MatchInfo) => SameMatch(row, m),
      (row: MatchInfo) => row.(actualOutcome := m.actualOutcome, actualScore := m.actualScore))]
  }

  /** `updateMatchMessageId`: the message id of the rows with this datetime and teams. */
  function UpdateMessageIdIn(t: Tables, m: MatchInfo): Tables {
    t[TableName(m.matchType) := UpdateWhere(LeagueRows(t, m.matchType),
      (row: MatchInfo) => SameMatch(row, m),
      (row: MatchInfo) => row.(telegramMessageId := m.telegramMessageId))]
  }

  /** `updateMatchPredictions`, known only from its call site: the predicted
      outcome, score and odds of the rows with this fixture id. */
  function UpdatePredictionsIn(t: Tables, m: MatchInfo): Tables {
    t[TableName(m.matchType) := UpdateWhere(LeagueRows(t, m.matchType),
      (row: MatchInfo) => row.fixtureId == m.fixtureId,
      (row: MatchInfo) => row.(predictedOutcome := m.predictedOutcome, predictedScore := m.predictedScore, odds := m.odds))]
  }

  /** `updateMatchDatetime`, known only from its call site: the datetime of
      the rows with this fixture id. */
  function UpdateDatetimeIn(t: Tables, m: MatchInfo): Tables {
    t[TableName(m.matchType) := UpdateWhere(LeagueRows(t, m.matchType),
      (row: MatchInfo) => row.fixtureId == m.fixtureId,
      (row: MatchInfo) => row.(datetime := m.datetime))]
  }

  /** `deleteMatchByFixtureId`, known only from its call site: removes the
      league's rows with this fixture id. */
  function DeleteFixtureIn(t: Tables, fixtureId: string, league: string): Tables {
    t[TableName(league) := Filter(LeagueRows(t, league), (row: MatchInfo) => row.fixtureId != Some(fixtureId))]
  }

  /** Two rows agree on everything but the actual outcome and score. */
  predicate SameButResult(a: MatchInfo, b: MatchInfo) {
    a.(actualOutcome := b.actualOutcome, actualScore := b.actualScore) == b
  }

  /** `updateMatchResult` touches only the actual outcome and score, only on
      rows with the given datetime and teams, and only in that league's
      table; so whether a match exists does not change. */
  lemma UpdateResultRestricted(t: Tables, m: MatchInfo, name: string)
    ensures |Rows(UpdateResultIn(t, m), name)| == |Rows(t, name)|
    ensures forall i :: 0 <= i < |Rows(t, name)| ==>
      var before, after := Rows(t, name)[i], Rows(UpdateResultIn(t, m), name)[i];
      SameButResult(before, after)
      && (after != before ==> name == TableName(m.matchType) && SameMatch(before, m))
      && (name == TableName(m.matchType) && SameMatch(before, m) ==>
            after.actualOutcome == m.actualOutcome && after.actualScore == m.actualScore)
    ensures forall x :: ExistsIn(UpdateResultIn(t, m), x) <==> ExistsIn(t, x)
  {
    forall x | ExistsIn(t, x)
      ensures ExistsIn(UpdateResultIn(t, m), x)
    {
      var rows := LeagueRows(t, x.matchType);
      var i :| 0 <= i < |rows| && SameMatch(rows[i], x);
      assert LeagueRows(UpdateResultIn(t, m), x.matchType)[i] in LeagueRows(UpdateResultIn(t, m), x.matchType);
    }
    forall x | ExistsIn(UpdateResultIn(t, m), x)
      ensures ExistsIn(t, x)
    {
      var rows := LeagueRows(UpdateResultIn(t, m), x.matchType);
      var i :| 0 <= i < |rows| && SameMatch(rows[i], x);
      assert LeagueRows(t, x.matchType)[i] in LeagueRows(t, x.matchType);
    }
  }

  /** `updateMatchMessageId` touches only the message id, and only on rows
      with the given datetime and teams in that league's table. */
  lemma UpdateMessageIdRestricted(t: Tables, m: MatchInfo, name: string)
    ensures |Rows(UpdateMessageIdIn(t, m), name)| == |Rows(t, name)|
    ensures forall i :: 0 <= i < |Rows(t, name)| ==>
      var before, after := Rows(t, name)[i], Rows(UpdateMessageIdIn(t, m), name)[i];
      before.(telegramMessageId := after.telegramMessageId) == after
      && (after != before ==> name == TableName(m.matchType) && SameMatch(before, m))
      && (name == TableName(m.matchType) && SameMatch(before, m) ==> after.telegramMessageId == m.telegramMessageId)
  {
  }

  /** After deleting a fixture, its league table holds no row with that id,
      and every other row is kept in order. */
  lemma DeleteFixtureRemovesAll(t: Tables, fixtureId: string, league: string)
    ensures forall row :: row in LeagueRows(DeleteFixtureIn(t, fixtureId, league), league) <==>
      row in LeagueRows(t, league) && row.fixtureId != Some(fixtureId)
    ensures forall name :: name != TableName(league) ==> Rows(DeleteFixtureIn(t, fixtureId, league), name) == Rows(t, name)
  {
  }

  /* --------------------------------------------------------------- lookups */

  /** Kotlin's `singleOrNull`: the only element, or null for none or several. */
  function SingleOrNull<T>(s: seq<T>): (r: Option<T>)
    ensures r.Some? <==> |s| == 1
    ensures r.Some? ==> r.value in s
  {
    if |s| == 1 then Some(s[0]) else None
  }

  function FixtureRows(rows: seq<MatchInfo>, fixtureId: string): seq<MatchInfo> {
    Filter(rows, (row: MatchInfo) => row.fixtureId == Some(fixtureId))
  }

  /** `getMatchInfo(fixtureId, league)` as its call site uses it. */
  function MatchInfoIn(t: Tables, fixtureId: string, league: string): (r: Option<MatchInfo>)
    ensures r.Some? <==> |FixtureRows(LeagueRows(t, league), fixtureId)| == 1
    ensures |FixtureRows(LeagueRows(t, league), fixtureId)| == 1 ==>
      r == Some(FixtureRows(LeagueRows(t, league), fixtureId)[0])
    ensures r.Some? ==> r.value in LeagueRows(t, league) && r.value.fixtureId == Some(fixtureId)
  {
    SingleOrNull(FixtureRows(LeagueRows(t, league), fixtureId))
  }

  /** `getMatchInfoByFixtureId`, known only from its call site: the one row
      with this fixture id among the listed leagues' tables. */
  function MatchInfoByFixtureIdIn(t: Tables, leagues: seq<string>, fixtureId: string): (r: Option<MatchInfo>)
    ensures r.Some? <==> |FixtureRows(ListedRows(t, leagues), fixtureId)| == 1
    ensures |FixtureRows(ListedRows(t, leagues), fixtureId)| == 1 ==>
      r == Some(FixtureRows(ListedRows(t, leagues), fixtureId)[0])
    ensures r.Some? ==> r.value.fixtureId == Some(fixtureId)
    ensures r.Some? ==> exists l :: l in leagues && r.value in LeagueRows(t, l)
  {
    SingleOrNull(FixtureRows(ListedRows(t, leagues), fixtureId))
  }

  /* ----------------------------------------------------------------- scans */

  predicate InWindow(row: MatchInfo, lo: int, hi: int, parse: string -> Option<int>) {
    parse(row.datetime).Some? && lo < parse(row.datetime).value < hi
  }

  /** Keeps, in order, the rows strictly inside (lo, hi); a datetime that
      does not parse throws, which is `None`. */
  function WindowRows(rows: seq<MatchInfo>, lo: int, hi: int, parse: string -> Option<int>): (r: Option<seq<MatchInfo>>)
    ensures r.None? <==> exists row :: row in rows && parse(row.datetime).None?
    ensures r.Some? ==> forall row :: row in r.value <==> row in rows && InWindow(row, lo, hi, parse)
    decreases |rows|
  {
    if rows == [] then Some([])
    else
      var last := rows[|rows| - 1];
      match WindowRows(rows[..|rows| - 1], lo, hi, parse)
      case None => None
      case Some(kept) =>
        match parse(last.datetime)
        case None => None
        case Some(time) => Some(kept + (if lo < time < hi then [last] else []))
  }

  /** The scan of `getUpcomingMatches` and the accuracy reports: every row
      of every listed league's table, in list order, strictly inside the window. */
  function WindowScan(t: Tables, leagues: seq<string>, lo: int, hi: int, parse: string -> Option<int>): Option<seq<MatchInfo>> {
    WindowRows(ListedRows(t, leagues), lo, hi, parse)
  }

  /** A scan reads only the listed leagues and keeps exactly the rows strictly
      inside its window; it fails exactly when a listed row's datetime does not parse. */
  lemma WindowScanExact(t: Tables, leagues: seq<string>, lo: int, hi: int, parse: string -> Option<int>)
    ensures WindowScan(t, leagues, lo, hi, parse).None? <==>
      exists row :: row in ListedRows(t, leagues) && parse(row.datetime).None?
    ensures WindowScan(t, leagues, lo, hi, parse).Some? ==>
      forall row :: row in WindowScan(t, leagues, lo, hi, parse).value <==>
        (exists l :: l in leagues && row in LeagueRows(t, l)) && InWindow(row, lo, hi, parse)
  {
  }

  /** Scanning one more row whose datetime parses extends the kept rows by
      that row exactly when it is inside the window. */
  lemma WindowRowsSnoc(rows: seq<MatchInfo>, kept: seq<MatchInfo>, row: MatchInfo, lo: int, hi: int, parse: string -> Option<int>)
    requires WindowRows(rows, lo, hi, parse) == Some(kept)
    requires parse(row.datetime).Some?
    ensures WindowRows(rows + [row], lo, hi, parse) ==
      Some(if lo < parse(row.datetime).value < hi then kept + [row] else kept)
  {
    assert (rows + [row])[..|rows|] == rows;
    assert kept + [] == kept;
  }

  /** A scan that fails on the first `n` listed leagues fails on them all. */
  lemma ScanFailsEarly(t: Tables, leagues: seq<string>, n: nat, lo: int, hi: int, parse: string -> Option<int>)
    requires n <= |leagues|
    requires WindowRows(ListedRows(t, leagues[..n]), lo, hi, parse).None?
    ensures WindowScan(t, leagues, lo, hi, parse).None?
  {
    var row :| row in ListedRows(t, leagues[..n]) && parse(row.datetime).None?;
    var l :| l in leagues[..n] && row in LeagueRows(t, l);
    assert l in leagues;
    assert row in ListedRows(t, leagues);
  }

  /** Continues a scan whose kept rows so far are `found` over the rows of
      one more table. */
  method ScanRows(ghost before: seq<MatchInfo>, found: seq<MatchInfo>, rows: seq<MatchInfo>,
                  lo: int, hi: int, parse: string -> Option<int>) returns (r: Option<seq<MatchInfo>>)
    requires WindowRows(before, lo, hi, parse) == Some(found)
    ensures r == WindowRows(before + rows, lo, hi, parse)
  {
    var kept := found;
    var j := 0;
    assert before + rows[..j] == before;
    while j < |rows|
      invariant 0 <= j <= |rows|
      invariant WindowRows(before + rows[..j], lo, hi, parse) == Some(kept)
    {
      var time := parse(rows[j].datetime);
      if time.None? {
        ScanRowFails(before, rows, j, lo, hi, parse);
        return None;
      }
      ScanRowStep(before, kept, rows, j, lo, hi, parse);
      if lo < time.value < hi {
        kept := kept + [rows[j]];
      }
      j := j + 1;
    }
    assert rows[..j] == rows;
    r := Some(kept);
  }

  /** Row `j` of `rows` extends the scan of the rows before it. */
  lemma ScanRowStep(before: seq<MatchInfo>, kept: seq<MatchInfo>, rows: seq<MatchInfo>, j: nat,
                    lo: int, hi: int, parse: string -> Option<int>)
    requires j < |rows| && parse(rows[j].datetime).Some?
    requires WindowRows(before + rows[..j], lo, hi, parse) == Some(kept)
    ensures WindowRows(before + rows[..j + 1], lo, hi, parse) ==
      Some(if lo < parse(rows[j].datetime).value < hi then kept + [rows[j]] else kept)
  {
    assert before + rows[..j + 1] == (before + rows[..j]) + [rows[j]];
    WindowRowsSnoc(before + rows[..j], kept, rows[j], lo, hi, parse);
  }

  /** A row whose time does not parse fails the whole scan. */
  lemma ScanRowFails(before: seq<MatchInfo>, rows: seq<MatchInfo>, j: nat,
                     lo: int, hi: int, parse: string -> Option<int>)
    requires j < |rows| && parse(rows[j].datetime).None?
    ensures WindowRows(before + rows, lo, hi, parse).None?
  {
    assert rows[j] in before + rows;
  }

  lemma NoneExtends(a: seq<MatchInfo>, b: seq<MatchInfo>, lo: int, hi: int, parse: string -> Option<int>)
    requires exists row :: row in a && parse(row.datetime).None?
    ensures WindowRows(a + b, lo, hi, parse).None?
  {
    var row :| row in a && parse(row.datetime).None?;
    assert row in a + b;
  }

  /* -------------------------------------------------------------- accuracy */

  predicate Correct(row: MatchInfo) {
    row.predictedOutcome == row.actualOutcome
  }

  /** Percentage of correct predictions as an exact rational; 0 when there is none. */
  function Accuracy(correct: nat, total: nat): (r: real)
    requires correct <= total
    ensures 0.0 <= r <= 100.0
    ensures total == 0 ==> r == 0.0
    ensures total > 0 ==> r * (total as real) == (correct as real) * 100.0
  {
    if total > 0 then (correct as real) * 100.0 / (total as real) else 0.0
  }

  datatype AccuracyReport = AccuracyReport(accuracy: real, correct: nat, total: nat)

  function ReportOf(rows: seq<MatchInfo>): (r: AccuracyReport)
    ensures r.correct <= r.total == |rows|
  {
    var correct := Count(rows, Correct);
    AccuracyReport(Accuracy(correct, |rows|), correct, |rows|)
  }

  /** Exact equality decides correctness, so a row with neither a predicted
      nor an actual outcome counts as correct, and one whose outcomes differ
      only in letter case does not. */
  lemma CorrectIsExactEquality(m: MatchInfo)
    ensures ReportOf([m.(predictedOutcome := None, actualOutcome := None)]).correct == 1
    ensures ReportOf([m.(predictedOutcome := Some("Draw"), actualOutcome := Some("draw"))]).correct == 0
  {
    var a := m.(predictedOutcome := None, actualOutcome := None);
    assert [a][..0] == [];
    var b := m.(predictedOutcome := Some("Draw"), actualOutcome := Some("draw"));
    assert [b][..0] == [];
    assert "Draw"[0] != "draw"[0];
  }

  /* ----------------------------------------------------------------- users */

  datatype UserRow = UserRow(
    userId: string,
    firstName: Option<string>,
    lastName: Option<string>,
    username: Option<string>,
    lastActivity: string)

  predicate UniqueUsers(users: seq<UserRow>) {
    forall i, j :: 0 <= i < j < |users| ==> users[i].userId != users[j].userId
  }

  predicate Registered(users: seq<UserRow>, userId: string) {
    exists u :: u in users && u.userId == userId
  }

  /** `addUserActivity`: update the row found by `singleOrNull`, or insert. */
  function AddUser(users: seq<UserRow>, userId: string, firstName: Option<string>,
                   lastName: Option<string>, username: Option<string>, now: string): seq<UserRow>
  {
    if Count(users, (u: UserRow) => u.userId == userId) == 1 then
      seq(|users|, i requires 0 <= i < |users| =>
        if users[i].userId == userId
        then users[i].(firstName := firstName, lastName := lastName, username := username, lastActivity := now)
        else users[i])
    else
      users + [UserRow(userId, firstName, lastName, username, now)]
  }

  lemma {:induction false} CountOneWhenUnique(users: seq<UserRow>, userId: string)
    requires UniqueUsers(users)
    ensures Count(users, (u: UserRow) => u.userId == userId) == (if Registered(users, userId) then 1 else 0)
    decreases |users|
  {
    if users != [] {
      var init := users[..|users| - 1];
      CountOneWhenUnique(init, userId);
      if users[|users| - 1].userId == userId {
        assert !Registered(init, userId);
      }
      assert Registered(users, userId) <==> Registered(init, userId) || users[|users| - 1].userId == userId;
    }
  }

  /** With at most one row per user: a known user keeps one row, updated; a
      new user gets one new row; so the user count grows exactly for new users. */
  lemma AddUserKeepsOneRowPerUser(users: seq<UserRow>, userId: string, firstName: Option<string>,
                                  lastName: Option<string>, username: Option<string>, now: string)
    requires UniqueUsers(users)
    ensures UniqueUsers(AddUser(users, userId, firstName, lastName, username, now))
    ensures |AddUser(users, userId, firstName, lastName, username, now)| ==
      |users| + (if Registered(users, userId) then 0 else 1)
    ensures UserRow(userId, firstName, lastName, username, now) in AddUser(users, userId, firstName, lastName, username, now)
    ensures forall i :: 0 <= i < |users| && users[i].userId != userId ==>
      AddUser(users, userId, firstName, lastName, username, now)[i] == users[i]
    ensures Registered(users, userId) ==> forall i :: 0 <= i < |users| && users[i].userId == userId ==>
      AddUser(users, userId, firstName, lastName, username, now)[i] == UserRow(userId, firstName, lastName, username, now)
  {
    CountOneWhenUnique(users, userId);
    var r := AddUser(users, userId, firstName, lastName, username, now);
    if Registered(users, userId) {
      var u :| u in users && u.userId == userId;
      var i :| 0 <= i < |users| && users[i] == u;
      assert r[i] == UserRow(userId, firstName, lastName, username, now);
    } else {
      assert r[|users|] == UserRow(userId, firstName, lastName, username, now);
    }
  }

  /** `getActiveUserCountLast24Hours`: users whose last activity text is not
      before the threshold text. */
  function ActiveUsers(users: seq<UserRow>, threshold: string): nat {
    Count(users, (u: UserRow) => !LexLess(u.lastActivity, threshold))
  }

  /** The distinct ids of the users whose row passes `keep`. */
  function UserIds(users: seq<UserRow>, keep: UserRow -> bool): set<string> {
    set u | u in users && keep(u) :: u.userId
  }

  /** With one row per user, counting rows counts distinct users. */
  lemma {:induction false} CountIsDistinctUsers(users: seq<UserRow>, keep: UserRow -> bool)
    requires UniqueUsers(users)
    ensures Count(users, keep) == |UserIds(users, keep)|
    decreases |users|
  {
    if users != [] {
      var init := users[..|users| - 1];
      assert UniqueUsers(init) by {
        forall i, j | 0 <= i < j < |init| ensures init[i].userId != init[j].userId {
          assert init[i] == users[i] && init[j] == users[j];
        }
      }
      CountIsDistinctUsers(init, keep);
      UserIdsSnoc(users, keep);
      LastUserIdIsNew(users, keep);
    }
  }

  lemma UserIdsSnoc(users: seq<UserRow>, keep: UserRow -> bool)
    requires users != []
    ensures var last := users[|users| - 1];
      UserIds(users, keep) == UserIds(users[..|users| - 1], keep) + (if keep(last) then {last.userId} else {})
  {
    var init := users[..|users| - 1];
    var last := users[|users| - 1];
    forall id | id in UserIds(users, keep) ensures id in UserIds(init, keep) || (keep(last) && id == last.userId) {
      var u :| u in users && keep(u) && u.userId == id;
      var i :| 0 <= i < |users| && users[i] == u;
      if i < |init| {
        assert init[i] == u;
      }
    }
    forall id | id in UserIds(init, keep) ensures id in UserIds(users, keep) {
      var u :| u in init && keep(u) && u.userId == id;
      var i :| 0 <= i < |init| && init[i] == u;
      assert users[i] == u;
    }
  }

  lemma LastUserIdIsNew(users: seq<UserRow>, keep: UserRow -> bool)
    requires users != [] && UniqueUsers(users)
    ensures users[|users| - 1].userId !in UserIds(users[..|users| - 1], keep)
  {
    var init := users[..|users| - 1];
    var last := users[|users| - 1];
    forall u | u in init ensures u.userId != last.userId {
      var i :| 0 <= i < |init| && init[i] == u;
      assert users[i] == u;
    }
  }

  /** Every row passes a test that is always true. */
  lemma {:induction false} CountAll(users: seq<UserRow>)
    ensures Count(users, (u: UserRow) => true) == |users|
    decreases |users|
  {
    if users != [] {
      CountAll(users[..|users| - 1]);
    }
  }

  /* ------------------------------------------------------------- the store */

  class Database {
    var tables: Tables
    var leagues: seq<string>
    var users: seq<UserRow>

    ghost predicate Valid()
      reads this
    {
      NoDuplicates(leagues) && UniqueUsers(users)
    }

    constructor ()
      ensures Valid()
      ensures tables == map[] && leagues == [] && users == []
    {
      tables, leagues, users := map[], [], [];
    }

    /** `matchExists`; a missing table reads as empty. */
    predicate MatchExists(m: MatchInfo)
      reads this
    {
      ExistsIn(tables, m)
    }

    method AppendRows(matches: seq<MatchInfo>)
      requires Valid()
      modifies this
      ensures Valid()
      ensures tables == AppendAll(old(tables), matches)
      ensures leagues == AddLeagues(old(leagues), matches)
      ensures users == old(users)
    {
      var i := 0;
      while i < |matches|
        invariant 0 <= i <= |matches|
        invariant tables == AppendAll(old(tables), matches[..i])
        invariant leagues == AddLeagues(old(leagues), matches[..i])
        invariant NoDuplicates(leagues)
        invariant users == old(users)
      {
        var m := matches[i];
        assert matches[..i + 1][..i] == matches[..i];
        if m.matchType !in leagues {
          leagues := leagues + [m.matchType];
        }
        var name := TableName(m.matchType);
        tables := tables[name := LeagueRows(tables, m.matchType) + [Stored(m)]];
        i := i + 1;
      }
      assert matches[..i] == matches;
    }

    method UpdateMatchResult(m: MatchInfo)
      requires Valid()
      modifies this
      ensures Valid()
      ensures tables == UpdateResultIn(old(tables), m)
      ensures leagues == old(leagues) && users == old(users)
    {
      tables := UpdateResultIn(tables, m);
    }

    method UpdateMatchMessageId(m: MatchInfo)
      requires Valid()
      modifies this
      ensures Valid()
      ensures tables == UpdateMessageIdIn(old(tables), m)
      ensures leagues == old(leagues) && users == old(users)
    {
      tables := UpdateMessageIdIn(tables, m);
    }

    method UpdateMatchPredictions(m: MatchInfo)
      requires Valid()
      modifies this
      ensures Valid()
      ensures tables == UpdatePredictionsIn(old(tables), m)
      ensures leagues == old(leagues) && users == old(users)
    {
      tables := UpdatePredictionsIn(tables, m);
    }

    method UpdateMatchDatetime(m: MatchInfo)
      requires Valid()
      modifies this
      ensures Valid()
      ensures tables == UpdateDatetimeIn(old(tables), m)
      ensures leagues == old(leagues) && users == old(users)
    {
      tables := UpdateDatetimeIn(tables, m);
    }

    method DeleteMatchByFixtureId(fixtureId: string, league: string)
      requires Valid()
      modifies this
      ensures Valid()
      ensures tables == DeleteFixtureIn(old(tables), fixtureId, league)
      ensures leagues == old(leagues) && users == old(users)
    {
      tables := DeleteFixtureIn(tables, fixtureId, league);
    }

    method GetMatchInfo(fixtureId: string, league: string) returns (r: Option<MatchInfo>)
      ensures r == MatchInfoIn(tables, fixtureId, league)
    {
      r := MatchInfoIn(tables, fixtureId, league);
    }

    method GetMatchInfoByFixtureId(fixtureId: string) returns (r: Option<MatchInfo>)
      ensures r == MatchInfoByFixtureIdIn(tables, leagues, fixtureId)
    {
      r := MatchInfoByFixtureIdIn(tables, leagues, fixtureId);
    }

    /** The league-by-league, row-by-row scan shared by the window queries. */
    method ScanWindow(lo: int, hi: int, parse: string -> Option<int>) returns (r: Option<seq<MatchInfo>>)
      ensures r == WindowScan(tables, leagues, lo, hi, parse)
    {
      var found: seq<MatchInfo> := [];
      var i := 0;
      while i < |leagues|
        invariant 0 <= i <= |leagues|
        invariant WindowRows(ListedRows(tables, leagues[..i]), lo, hi, parse) == Some(found)
      {
        assert leagues[..i + 1][..i] == leagues[..i];
        var next := ScanRows(ListedRows(tables, leagues[..i]), found, LeagueRows(tables, leagues[i]), lo, hi, parse);
        if next.None? {
          ScanFailsEarly(tables, leagues, i + 1, lo, hi, parse);
          return None;
        }
        found := next.value;
        i := i + 1;
      }
      assert leagues[..i] == leagues;
      r := Some(found);
    }

    /** `getUpcomingMatches`: rows strictly within the next day. */
    method GetUpcomingMatches(now: int, parse: string -> Option<int>) returns (r: Option<seq<MatchInfo>>)
      ensures r == WindowScan(tables, leagues, now, now + Day, parse)
    {
      r := ScanWindow(now, now + Day, parse);
    }

    /** `getMatchesWithoutMessageIdForNext12Hours`, known only from its call
        site: upcoming rows of the next 12 hours that have no message yet. */
    method GetMatchesWithoutMessageIdForNext12Hours(now: int, parse: string -> Option<int>)
      returns (r: Option<seq<MatchInfo>>)
      ensures WindowScan(tables, leagues, now, now + HalfDay, parse).None? ==> r.None?
      ensures WindowScan(tables, leagues, now, now + HalfDay, parse).Some? ==>
        r == Some(Filter(WindowScan(tables, leagues, now, now + HalfDay, parse).value, (m: MatchInfo) => m.telegramMessageId.None?))
    {
      var scanned := ScanWindow(now, now + HalfDay, parse);
      if scanned.None? {
        return None;
      }
      r := Some(Filter(scanned.value, (m: MatchInfo) => m.telegramMessageId.None?));
    }

    /** Accuracy over the rows strictly inside (lo, hi). */
    method AccuracyForWindow(lo: int, hi: int, parse: string -> Option<int>) returns (r: Option<AccuracyReport>)
      ensures WindowScan(tables, leagues, lo, hi, parse).None? ==> r.None?
      ensures WindowScan(tables, leagues, lo, hi, parse).Some? ==>
        r == Some(ReportOf(WindowScan(tables, leagues, lo, hi, parse).value))
    {
      var scanned := ScanWindow(lo, hi, parse);
      if scanned.None? {
        return None;
      }
      r := Some(ReportOf(scanned.value));
    }

    /** `getCorrectPredictionsLast24Hours`. */
    method GetCorrectPredictionsLast24Hours(now: int, parse: string -> Option<int>) returns (r: Option<AccuracyReport>)
      ensures WindowScan(tables, leagues, now - Day, now, parse).None? ==> r.None?
      ensures WindowScan(tables, leagues, now - Day, now, parse).Some? ==>
        r == Some(ReportOf(WindowScan(tables, leagues, now - Day, now, parse).value))
    {
      r := AccuracyForWindow(now - Day, now, parse);
    }

    /** `getCorrectPredictionsForPeriod`, known only from its call sites: the
        same report over the last `days` days. */
    method GetCorrectPredictionsForPeriod(days: int, now: int, parse: string -> Option<int>) returns (r: Option<AccuracyReport>)
      ensures WindowScan(tables, leagues, now - days * Day, now, parse).None? ==> r.None?
      ensures WindowScan(tables, leagues, now - days * Day, now, parse).Some? ==>
        r == Some(ReportOf(WindowScan(tables, leagues, now - days * Day, now, parse).value))
    {
      r := AccuracyForWindow(now - days * Day, now, parse);
    }

    method AddUserActivity(userId: string, firstName: Option<string>, lastName: Option<string>,
                           username: Option<string>, now: string)
      requires Valid()
      modifies this
      ensures Valid()
      ensures users == AddUser(old(users), userId, firstName, lastName, username, now)
      ensures tables == old(tables) && leagues == old(leagues)
    {
      AddUserKeepsOneRowPerUser(users, userId, firstName, lastName, username, now);
      users := AddUser(users, userId, firstName, lastName, username, now);
    }

    /** `getUserCount`: the number of rows, which is the number of distinct users. */
    method GetUserCount() returns (n: nat)
      requires Valid()
      ensures n == |UserIds(users, (u: UserRow) => true)|
    {
      n := |users|;
      CountAll(users);
      CountIsDistinctUsers(users, (u: UserRow) => true);
    }

    /** `getActiveUserCountLast24Hours`: the number of distinct users active
        since the threshold text. */
    method GetActiveUserCountLast24Hours(threshold: string) returns (n: nat)
      requires Valid()
      ensures n == |UserIds(users, (u: UserRow) => !LexLess(u.lastActivity, threshold))|
    {
      n := ActiveUsers(users, threshold);
      CountIsDistinctUsers(users, (u: UserRow) => !LexLess(u.lastActivity, threshold));
    }
  }
}
