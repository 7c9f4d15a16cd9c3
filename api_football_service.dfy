/** `HttpAPIFootballService.kt`: storing the coming fixtures of the
    configured leagues with a prediction each, recording the results of
    finished ones, and reading the live state of one fixture. The football
    API and the prediction service are oracles given as parameters. */
module HttpAPIFootballService {
  import opened Common
  import opened Dto
  import opened DatabaseService
  import opened FootballBot

  /* ------------------------------------------------------ the API's data */

  datatype Team = Team(name: string, winner: Option<bool>)
  datatype Goals = Goals(home: Option<int>, away: Option<int>)
  datatype Status = Status(short: string, elapsed: Option<int>)
  datatype Fixture = Fixture(id: int, date: string, status: Status)
  datatype League = League(name: string, country: string)
  datatype ApiMatch = ApiMatch(fixture: Fixture, league: League, home: Team, away: Team, goals: Option<Goals>)

  /** What a request returns: the matches of a 200 answer, or nothing. */
  datatype ApiResponse = NotOk | Ok(matches: seq<ApiMatch>)

  /** The league name the store uses: country, a space, then name. */
  function LeagueName(l: League): string {
    l.country + " " + l.name
  }

  function TeamsText(m: ApiMatch): string {
    m.home.name + " vs. " + m.away.name
  }

  /* --------------------------------------------------------------- results */

  /** The winner's name, or "Draw"; the home flag is looked at first. */
  function ActualOutcome(home: Team, away: Team): (r: string)
    ensures home.winner == Some(true) ==> r == home.name
    ensures home.winner != Some(true) && away.winner == Some(true) ==> r == away.name
    ensures home.winner != Some(true) && away.winner != Some(true) ==> r == "Draw"
  {
    if home.winner == Some(true) then home.name
    else if away.winner == Some(true) then away.name
    else "Draw"
  }

  function HomeGoals(g: Option<Goals>): int {
    match g
    case None => 0
    case Some(goals) => goals.home.GetOr(0)
  }

  function AwayGoals(g: Option<Goals>): int {
    match g
    case None => 0
    case Some(goals) => goals.away.GetOr(0)
  }

  /** "home:away", a missing count shown as 0. */
  function ScoreString(g: Option<Goals>): string {
    IntToString(HomeGoals(g)) + ":" + IntToString(AwayGoals(g))
  }

  /** Position of the first ':', or |s|. */
  function FirstColon(s: string): (k: nat)
    ensures k <= |s|
    ensures forall i :: 0 <= i < k ==> s[i] != ':'
    ensures k < |s| ==> s[k] == ':'
    decreases |s|
  {
    if s == [] || s[0] == ':' then 0 else 1 + FirstColon(s[1..])
  }

  /** Reads a score string back into its two counts. */
  function ReadScore(s: string): Option<(int, int)> {
    var k := FirstColon(s);
    if k == |s| then None
    else match (ParseInt(s[..k]), ParseInt(s[k + 1..]))
      case (Some(h), Some(a)) => Some((h, a))
      case _ => None
  }

  /** The score string holds both counts, missing ones as 0, and reads back
      as them. */
  lemma ScoreRoundTrip(g: Option<Goals>)
    ensures ReadScore(ScoreString(g)) == Some((HomeGoals(g), AwayGoals(g)))
    ensures g.None? ==> ScoreString(g) == "0:0"
  {
    var h, a := IntToString(HomeGoals(g)), IntToString(AwayGoals(g));
    var s := ScoreString(g);
    assert s[|h|] == ':';
    assert forall i :: 0 <= i < |h| ==> s[i] == h[i];
    assert FirstColon(s) == |h|;
    assert s[..|h|] == h;
    assert s[|h| + 1..] == a;
    ParseIntToString(HomeGoals(g));
    ParseIntToString(AwayGoals(g));
  }

  /* ------------------------------------------------ the per-fixture pipeline */

  const MaxAttempts: nat := 3

  /** The first attempt from `k` on whose prediction succeeded, or
      `MaxAttempts` when none of them did. */
  function FirstSuccess(predict: nat -> Option<MatchInfo>, k: nat): (n: nat)
    requires k <= MaxAttempts
    ensures k <= n <= MaxAttempts
    ensures n < MaxAttempts ==> predict(n).Some?
    ensures forall j :: k <= j < n ==> predict(j).None?
    decreases MaxAttempts - k
  {
    if k == MaxAttempts || predict(k).Some? then k else FirstSuccess(predict, k + 1)
  }

  /** The number of prediction requests: up to the first success, at most three. */
  function Attempts(predict: nat -> Option<MatchInfo>): nat {
    var n := FirstSuccess(predict, 0);
    if n < MaxAttempts then n + 1 else MaxAttempts
  }

  /** The record `fetchMatches` builds for an API fixture; `format` turns
      the API's ISO date into "yyyy-MM-dd HH:mm". */
  function NewRecord(m: ApiMatch, format: string -> string): MatchInfo {
    MatchInfo(format(m.fixture.date), LeagueName(m.league), TeamsText(m),
              None, None, None, None, None, None, Some(IntToString(m.fixture.id)), None)
  }

  /** The record after the prediction is copied in. */
  function Predicted(info: MatchInfo, p: MatchInfo): MatchInfo {
    info.(predictedOutcome := p.predictedOutcome, predictedScore := p.predictedScore, odds := p.odds)
  }

  datatype Store = Store(tables: Tables, leagues: seq<string>)

  /** One fixture of `fetchMatches`: a stored match only has its datetime
      updated; a new one is inserted and then either gets its prediction or,
      after three failed attempts, is deleted again. */
  function FixtureStep(st: Store, m: ApiMatch, format: string -> string, predict: nat -> Option<MatchInfo>): Store {
    var info := NewRecord(m, format);
    if ExistsIn(st.tables, info) then Store(UpdateDatetimeIn(st.tables, info), st.leagues)
    else
      var tables := AppendAll(st.tables, [info]);
      var leagues := AddLeagues(st.leagues, [info]);
      var n := FirstSuccess(predict, 0);
      if n < MaxAttempts then Store(UpdatePredictionsIn(tables, Predicted(info, predict(n).value)), leagues)
      else Store(DeleteFixtureIn(tables, IntToString(m.fixture.id), info.matchType), leagues)
  }

  /** The attempt count is the first success plus one, or three; every
      attempt before the last failed. */
  lemma AttemptsStopAtFirstSuccess(predict: nat -> Option<MatchInfo>)
    ensures 1 <= Attempts(predict) <= MaxAttempts
    ensures forall j :: 0 <= j < Attempts(predict) - 1 ==> predict(j).None?
    ensures Attempts(predict) < MaxAttempts ==> predict(Attempts(predict) - 1).Some?
    ensures Attempts(predict) == MaxAttempts ==> predict(0).None? && predict(1).None?
  {
  }

  lemma FirstSuccessIs(predict: nat -> Option<MatchInfo>, n: nat)
    requires n <= MaxAttempts
    requires forall j :: 0 <= j < n ==> predict(j).None?
    requires n < MaxAttempts ==> predict(n).Some?
    ensures FirstSuccess(predict, 0) == n
  {
  }

  lemma AppendOneRows(t: Tables, info: MatchInfo)
    ensures LeagueRows(AppendAll(t, [info]), info.matchType) == LeagueRows(t, info.matchType) + [Stored(info)]
    ensures forall name :: name != TableName(info.matchType) ==> Rows(AppendAll(t, [info]), name) == Rows(t, name)
  {
    assert [info][..0] == [];
  }

  /** A fixture already stored under its datetime and teams gets no
      prediction request: only the datetime of the rows with its fixture id
      is set, every row keeps everything else, and it is still stored. */
  lemma StoredFixtureOnlyRescheduled(st: Store, m: ApiMatch, format: string -> string, predict: nat -> Option<MatchInfo>, name: string)
    requires ExistsIn(st.tables, NewRecord(m, format))
    ensures FixtureStep(st, m, format, predict).leagues == st.leagues
    ensures |Rows(FixtureStep(st, m, format, predict).tables, name)| == |Rows(st.tables, name)|
    ensures forall i :: 0 <= i < |Rows(st.tables, name)| ==>
      Rows(st.tables, name)[i].(datetime := Rows(FixtureStep(st, m, format, predict).tables, name)[i].datetime)
        == Rows(FixtureStep(st, m, format, predict).tables, name)[i]
    ensures ExistsIn(FixtureStep(st, m, format, predict).tables, NewRecord(m, format))
  {
    var info := NewRecord(m, format);
    var after := UpdateDatetimeIn(st.tables, info);
    var rows := LeagueRows(st.tables, info.matchType);
    var i :| 0 <= i < |rows| && SameMatch(rows[i], info);
    assert LeagueRows(after, info.matchType)[i] == rows[i];
    assert LeagueRows(after, info.matchType)[i] in LeagueRows(after, info.matchType);
  }

  /** A new fixture whose prediction arrives is stored once more, at the end
      of its league's table, carrying the prediction's outcome, score and
      odds; its league is listed, and the fixture is then found as stored. */
  lemma NewFixtureStoredWithPrediction(st: Store, m: ApiMatch, format: string -> string, predict: nat -> Option<MatchInfo>)
    requires !ExistsIn(st.tables, NewRecord(m, format))
    requires FirstSuccess(predict, 0) < MaxAttempts
    ensures var info := NewRecord(m, format);
      var rows := LeagueRows(FixtureStep(st, m, format, predict).tables, info.matchType);
      |rows| == |LeagueRows(st.tables, info.matchType)| + 1
      && rows[|rows| - 1] == Predicted(info, predict(FirstSuccess(predict, 0)).value)
      && ExistsIn(FixtureStep(st, m, format, predict).tables, info)
      && info.matchType in FixtureStep(st, m, format, predict).leagues
  {
    var info := NewRecord(m, format);
    AppendOneRows(st.tables, info);
    assert [info][..0] == [];
    var p := predict(FirstSuccess(predict, 0)).value;
    var rows := LeagueRows(FixtureStep(st, m, format, predict).tables, info.matchType);
    assert rows[|rows| - 1] == Predicted(info, p);
    assert rows[|rows| - 1] in rows;
  }

  /** A new fixture whose three attempts all fail leaves no row with its
      fixture id in its league's table (rows stored earlier under the same
      id go too); every other row of that table and every other table is
      kept, and the fixture is not found as stored. */
  lemma FailedFixtureDeleted(st: Store, m: ApiMatch, format: string -> string, predict: nat -> Option<MatchInfo>)
    requires !ExistsIn(st.tables, NewRecord(m, format))
    requires FirstSuccess(predict, 0) == MaxAttempts
    ensures var info := NewRecord(m, format);
      var after := FixtureStep(st, m, format, predict).tables;
      LeagueRows(after, info.matchType) ==
        Filter(LeagueRows(st.tables, info.matchType), (row: MatchInfo) => row.fixtureId != info.fixtureId)
      && (forall name :: name != TableName(info.matchType) ==> Rows(after, name) == Rows(st.tables, name))
      && !ExistsIn(after, info)
  {
    var info := NewRecord(m, format);
    AppendOneRows(st.tables, info);
    var keep := (row: MatchInfo) => row.fixtureId != Some(IntToString(m.fixture.id));
    var before := LeagueRows(st.tables, info.matchType);
    assert (before + [Stored(info)])[..|before|] == before;
    assert Filter(before + [Stored(info)], keep) == Filter(before, keep);
    FilterCongruent(before, keep, (row: MatchInfo) => row.fixtureId != info.fixtureId);
  }

  /** A fixture whose kickoff moved is not found under its new datetime, so
      it is inserted again: once its prediction arrives its league's table
      holds two rows with its fixture id, and looking it up by fixture id
      (`singleOrNull`) finds nothing. */
  lemma RescheduledFixtureStoredTwice(st: Store, m: ApiMatch, format: string -> string, predict: nat -> Option<MatchInfo>, k: int)
    requires !ExistsIn(st.tables, NewRecord(m, format))
    requires FirstSuccess(predict, 0) < MaxAttempts
    requires 0 <= k < |LeagueRows(st.tables, LeagueName(m.league))|
    requires LeagueRows(st.tables, LeagueName(m.league))[k].fixtureId == Some(IntToString(m.fixture.id))
    ensures MatchInfoIn(FixtureStep(st, m, format, predict).tables, IntToString(m.fixture.id), LeagueName(m.league)) == None
  {
    var info := NewRecord(m, format);
    var id := IntToString(m.fixture.id);
    AppendOneRows(st.tables, info);
    var before := LeagueRows(st.tables, info.matchType);
    var rows := LeagueRows(FixtureStep(st, m, format, predict).tables, info.matchType);
    assert rows[k].fixtureId == Some(id);
    assert rows[|before|].fixtureId == Some(id);
    FilterKeepsTwo(rows, (row: MatchInfo) => row.fixtureId == Some(id), k, |before|);
  }

  /** `fetchMatches` for one fixture, as written: a `while` loop of at
      most three prediction attempts with a pause after each failure that
      is not the last. */
  method ProcessFixture(db: Database, m: ApiMatch, format: string -> string, predict: nat -> Option<MatchInfo>)
    returns (attempts: nat, pauses: nat)
    requires db.Valid()
    modifies db
    ensures db.Valid() && db.users == old(db.users)
    ensures Store(db.tables, db.leagues) == FixtureStep(Store(old(db.tables), old(db.leagues)), m, format, predict)
    ensures ExistsIn(old(db.tables), NewRecord(m, format)) ==> attempts == 0 && pauses == 0
    ensures !ExistsIn(old(db.tables), NewRecord(m, format)) ==> attempts == Attempts(predict) && pauses == attempts - 1
  {
    var info := NewRecord(m, format);
    if db.MatchExists(info) {
      db.UpdateMatchDatetime(info);
      return 0, 0;
    }
    db.AppendRows([info]);
    ghost var inserted := db.tables;
    var prediction: Option<MatchInfo> := None;
    attempts, pauses := 0, 0;
    while attempts < MaxAttempts && prediction.None?
      invariant 0 <= attempts <= MaxAttempts
      invariant db.Valid() && db.users == old(db.users)
      invariant db.leagues == AddLeagues(old(db.leagues), [info])
      invariant prediction.None? ==> (forall j :: 0 <= j < attempts ==> predict(j).None?) && db.tables == inserted
      invariant prediction.Some? ==>
        (attempts >= 1 && prediction == predict(attempts - 1)
         && (forall j :: 0 <= j < attempts - 1 ==> predict(j).None?)
         && db.tables == UpdatePredictionsIn(inserted, Predicted(info, prediction.value)))
      invariant pauses == if prediction.Some? || attempts == MaxAttempts then attempts - 1 else attempts
    {
      attempts := attempts + 1;
      prediction := predict(attempts - 1);
      if prediction.Some? {
        db.UpdateMatchPredictions(Predicted(info, prediction.value));
      } else if attempts < MaxAttempts {
        pauses := pauses + 1;
      }
    }
    if prediction.None? {
      FirstSuccessIs(predict, MaxAttempts);
      db.DeleteMatchByFixtureId(IntToString(m.fixture.id), info.matchType);
    } else {
      FirstSuccessIs(predict, attempts - 1);
    }
  }

  /** `fetchMatches` over the fixtures the API returned, in order; the
      prediction oracle of the i-th fixture is `predict(i)`. */
  function FetchRun(st: Store, ms: seq<ApiMatch>, format: string -> string, predict: nat -> nat -> Option<MatchInfo>): Store
    decreases |ms|
  {
    if ms == [] then st
    else FixtureStep(FetchRun(st, ms[..|ms| - 1], format, predict), ms[|ms| - 1], format, predict(|ms| - 1))
  }

  method FetchMatches(db: Database, ms: seq<ApiMatch>, format: string -> string, predict: nat -> nat -> Option<MatchInfo>)
    requires db.Valid()
    modifies db
    ensures db.Valid() && db.users == old(db.users)
    ensures Store(db.tables, db.leagues) == FetchRun(Store(old(db.tables), old(db.leagues)), ms, format, predict)
  {
    var i := 0;
    while i < |ms|
      invariant 0 <= i <= |ms|
      invariant db.Valid() && db.users == old(db.users)
      invariant Store(db.tables, db.leagues) == FetchRun(Store(old(db.tables), old(db.leagues)), ms[..i], format, predict)
    {
      assert ms[..i + 1][..i] == ms[..i];
      var _, _ := ProcessFixture(db, ms[i], format, predict(i));
      i := i + 1;
    }
    assert ms[..i] == ms;
  }

  /* ------------------------------------------------------- past matches */

  /** The record `fetchPastMatches` writes back: the stored one with the
      result filled in, or, for a fixture not stored, a fresh record
      carrying only the result. */
  function PastRecord(t: Tables, m: ApiMatch): MatchInfo {
    var outcome := Some(ActualOutcome(m.home, m.away));
    var score := Some(ScoreString(m.goals));
    match MatchInfoIn(t, IntToString(m.fixture.id), LeagueName(m.league))
    case Some(e) => e.(actualOutcome := outcome, actualScore := score)
    case None => MatchInfo(m.fixture.date, LeagueName(m.league), TeamsText(m), None, outcome, None, score,
                           None, None, Some(IntToString(m.fixture.id)), None)
  }

  /** An edit of a posted channel message. */
  datatype Edit = Edit(chatId: string, messageId: string, text: string)

  /** The edit `fetchPastMatches` asks for: only when the record has a message id. */
  function PastEdit(channelId: string, rec: MatchInfo): Option<Edit> {
    match rec.telegramMessageId
    case None => None
    case Some(id) => Some(Edit(channelId, id, FormatMatchInfoWithResult(rec)))
  }

  datatype PastState = PastState(tables: Tables, edits: seq<Edit>)

  function PastRun(t: Tables, channelId: string, ms: seq<ApiMatch>): PastState
    decreases |ms|
  {
    if ms == [] then PastState(t, [])
    else
      var before := PastRun(t, channelId, ms[..|ms| - 1]);
      var rec := PastRecord(before.tables, ms[|ms| - 1]);
      var edit := PastEdit(channelId, rec);
      PastState(UpdateResultIn(before.tables, rec), before.edits + (if edit.Some? then [edit.value] else []))
  }

  /** For a stored fixture, the written-back record keeps every stored
      field (predictions and message id included) and only gains the
      result; its edit shows ✅ exactly when the stored prediction named the
      result. A fixture not stored has no message to edit. */
  lemma PastRecordKeepsStoredFields(t: Tables, m: ApiMatch, channelId: string)
    ensures var stored := MatchInfoIn(t, IntToString(m.fixture.id), LeagueName(m.league));
      var rec := PastRecord(t, m);
      rec.actualOutcome == Some(ActualOutcome(m.home, m.away))
      && rec.actualScore == Some(ScoreString(m.goals))
      && (stored.Some? ==>
            (SameButResult(stored.value, rec)
             && (ResultEmoji(rec) == Check <==> stored.value.predictedOutcome == Some(ActualOutcome(m.home, m.away)))))
      && (stored.None? ==> PastEdit(channelId, rec).None?)
      && (PastEdit(channelId, rec).Some? <==> rec.telegramMessageId.Some?)
  {
  }

  /** Recording results changes only actual outcomes and scores: every
      table keeps its rows in place, and whether a match is stored does not
      change. */
  lemma {:induction false} PastRunOnlyRecordsResults(t: Tables, channelId: string, ms: seq<ApiMatch>, name: string)
    ensures |Rows(PastRun(t, channelId, ms).tables, name)| == |Rows(t, name)|
    ensures forall i :: 0 <= i < |Rows(t, name)| ==>
      SameButResult(Rows(t, name)[i], Rows(PastRun(t, channelId, ms).tables, name)[i])
    ensures forall x :: ExistsIn(PastRun(t, channelId, ms).tables, x) <==> ExistsIn(t, x)
    decreases |ms|
  {
    if ms != [] {
      var before := PastRun(t, channelId, ms[..|ms| - 1]);
      PastRunOnlyRecordsResults(t, channelId, ms[..|ms| - 1], name);
      UpdateResultRestricted(before.tables, PastRecord(before.tables, ms[|ms| - 1]), name);
    }
  }

  /** `fetchPastMatches` over the finished fixtures the API returned. */
  method FetchPastMatches(db: Database, channelId: string, ms: seq<ApiMatch>) returns (edits: seq<Edit>)
    requires db.Valid()
    modifies db
    ensures db.Valid() && db.leagues == old(db.leagues) && db.users == old(db.users)
    ensures PastState(db.tables, edits) == PastRun(old(db.tables), channelId, ms)
  {
    edits := [];
    var i := 0;
    while i < |ms|
      invariant 0 <= i <= |ms|
      invariant db.Valid() && db.leagues == old(db.leagues) && db.users == old(db.users)
      invariant PastState(db.tables, edits) == PastRun(old(db.tables), channelId, ms[..i])
    {
      assert ms[..i + 1][..i] == ms[..i];
      var m := ms[i];
      var rec := PastRecord(db.tables, m);
      match rec.telegramMessageId {
        case None =>
        case Some(id) =>
          edits := edits + [Edit(channelId, id, FormatMatchInfoWithResult(rec))];
      }
      db.UpdateMatchResult(rec);
      i := i + 1;
    }
    assert ms[..i] == ms;
  }

  /* ---------------------------------------------------------- live state */

  /** The statuses of a finished match. */
  predicate Finished(short: string) {
    short == "FT" || short == "AET" || short == "PEN"
  }

  /** `getLiveMatchInfo` given the stored record and the API's answer. */
  function LiveMatchInfo(stored: Option<MatchInfo>, response: ApiResponse): (r: Option<MatchInfo>)
    ensures r.Some? <==> stored.Some? && response.Ok? && response.matches != []
    ensures r.Some? ==>
      var m := response.matches[0];
      r.value == stored.value.(actualScore := r.value.actualScore, actualOutcome := r.value.actualOutcome, elapsed := r.value.elapsed)
      && r.value.actualScore == Some(ScoreString(m.goals))
      && (r.value.actualOutcome.Some? <==> Finished(m.fixture.status.short))
      && (r.value.actualOutcome.Some? ==> r.value.actualOutcome.value == ActualOutcome(m.home, m.away))
      && r.value.elapsed == Some(m.fixture.status.elapsed.GetOr(0))
  {
    match stored
    case None => None
    case Some(e) =>
      match response
      case NotOk => None
      case Ok(matches) =>
        if matches == [] then None
        else
          var m := matches[0];
          var outcome := if Finished(m.fixture.status.short) then Some(ActualOutcome(m.home, m.away)) else None;
          Some(e.(actualScore := Some(ScoreString(m.goals)), actualOutcome := outcome,
                  elapsed := Some(m.fixture.status.elapsed.GetOr(0))))
  }

  /** `getLiveMatchInfo`: the API is asked only about a stored fixture. */
  method GetLiveMatchInfo(db: Database, fixtureId: string, response: ApiResponse) returns (r: Option<MatchInfo>)
    ensures r == LiveMatchInfo(MatchInfoByFixtureIdIn(db.tables, db.leagues, fixtureId), response)
  {
    var existing := db.GetMatchInfoByFixtureId(fixtureId);
    r := LiveMatchInfo(existing, response);
  }
}
