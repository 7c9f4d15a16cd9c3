/** `HttpFootBallDataService.kt`: the callback of the football-data request.
    It builds a prompt from the scheduled matches, asks for predictions, and
    appends to the predictions file those not already among its upcoming
    rows. The HTTP call and the prediction service are oracles. */
module HttpFootBallDataService {
  import opened Common
  import opened Dto
  import opened DatabaseService
  import opened KotlinText
  import opened ChatGPTService
  import opened CSVService

  /** A scheduled match as football-data returns it. */
  datatype FdMatch = FdMatch(utcDate: string, competition: string, homeTeam: string, awayTeam: string)

  /** How the request ends: a failure, an unsuccessful status, or a
      successful answer whose body may lack the matches. */
  datatype FdResponse = Failure | Unsuccessful(code: int) | Successful(matches: Option<seq<FdMatch>>)

  /** The three lines describing one match in the prompt. */
  function BlockLines(m: FdMatch): seq<string> {
    ["[Match Start UTC]: [" + m.utcDate + "]",
     "[Match Type]: [" + m.competition + "]",
     "[Teams]: [" + m.homeTeam + " vs " + m.awayTeam + "]"]
  }

  function PromptBlock(m: FdMatch): string {
    Join(BlockLines(m), "\n")
  }

  /** `joinToString(separator = "\n")` over the matches. */
  function PromptText(ms: seq<FdMatch>): string {
    Join(seq(|ms|, i requires 0 <= i < |ms| => PromptBlock(ms[i])), "\n")
  }

  /** The prompt's lines: three per match, in the API's order. */
  function PromptLines(ms: seq<FdMatch>): (ls: seq<string>)
    ensures |ls| == 3 * |ms|
    decreases |ms|
  {
    if ms == [] then [] else BlockLines(ms[0]) + PromptLines(ms[1..])
  }

  predicate OneLineMatch(m: FdMatch) {
    NoLineBreak(m.utcDate) && NoLineBreak(m.competition) && NoLineBreak(m.homeTeam) && NoLineBreak(m.awayTeam)
  }

  lemma BlockLinesOneLine(m: FdMatch)
    requires OneLineMatch(m)
    ensures forall i :: 0 <= i < 3 ==> NoLineBreak(BlockLines(m)[i])
  {
    ConcatNoLineBreak("[Match Start UTC]: [", m.utcDate);
    ConcatNoLineBreak("[Match Start UTC]: [" + m.utcDate, "]");
    ConcatNoLineBreak("[Match Type]: [", m.competition);
    ConcatNoLineBreak("[Match Type]: [" + m.competition, "]");
    ConcatNoLineBreak("[Teams]: [", m.homeTeam);
    ConcatNoLineBreak("[Teams]: [" + m.homeTeam, " vs ");
    ConcatNoLineBreak("[Teams]: [" + m.homeTeam + " vs ", m.awayTeam);
    ConcatNoLineBreak("[Teams]: [" + m.homeTeam + " vs " + m.awayTeam, "]");
  }

  lemma {:induction false} PromptTextIsJoinedLines(ms: seq<FdMatch>)
    ensures PromptText(ms) == Join(PromptLines(ms), "\n")
    decreases |ms|
  {
    var blocks := seq(|ms|, i requires 0 <= i < |ms| => PromptBlock(ms[i]));
    if ms == [] {
    } else if |ms| == 1 {
      assert PromptLines(ms) == BlockLines(ms[0]) + [];
      assert BlockLines(ms[0]) + [] == BlockLines(ms[0]);
    } else {
      PromptTextIsJoinedLines(ms[1..]);
      assert blocks[1..] == seq(|ms[1..]|, i requires 0 <= i < |ms[1..]| => PromptBlock(ms[1..][i]));
      JoinAppend(BlockLines(ms[0]), PromptLines(ms[1..]));
    }
  }

  lemma {:induction false} PromptLinesOneLine(ms: seq<FdMatch>)
    requires forall i :: 0 <= i < |ms| ==> OneLineMatch(ms[i])
    ensures forall i :: 0 <= i < |PromptLines(ms)| ==> NoLineBreak(PromptLines(ms)[i])
    decreases |ms|
  {
    if ms != [] {
      BlockLinesOneLine(ms[0]);
      PromptLinesOneLine(ms[1..]);
      var ls := PromptLines(ms);
      forall i | 0 <= i < |ls|
        ensures NoLineBreak(ls[i])
      {
        if i >= 3 {
          assert ls[i] == PromptLines(ms[1..])[i - 3];
        }
      }
    }
  }

  /** With one-line values, the prompt reads back as one three-line block
      per match, in the API's order: the start, the competition and the
      teams of the k-th match are lines 3k, 3k+1 and 3k+2. */
  lemma PromptReadsBack(ms: seq<FdMatch>)
    requires ms != [] && forall i :: 0 <= i < |ms| ==> OneLineMatch(ms[i])
    ensures Lines(PromptText(ms)) == PromptLines(ms)
  {
    PromptTextIsJoinedLines(ms);
    PromptLinesOneLine(ms);
    LinesOfJoin(PromptLines(ms));
  }

  lemma {:induction false} PromptLinesAt(ms: seq<FdMatch>, k: nat)
    requires k < |ms|
    ensures PromptLines(ms)[3 * k..3 * k + 3] == BlockLines(ms[k])
    decreases k
  {
    if k > 0 {
      PromptLinesAt(ms[1..], k - 1);
      assert PromptLines(ms)[3 * k..3 * k + 3] == PromptLines(ms[1..])[3 * (k - 1)..3 * (k - 1) + 3];
    }
  }

  /* ------------------------------------------------------- new matches */

  /** `isMatchInFile`: an upcoming row of the file has the same teams and datetime. */
  predicate InFile(lines: seq<seq<string>>, m: MatchInfo, now: int, parse: string -> Option<int>) {
    var upcoming := UpcomingLines(lines, now, parse);
    exists i :: 0 <= i < |upcoming| && upcoming[i][2] == m.teams && upcoming[i][0] == m.datetime
  }

  method IsMatchInFile(csv: CsvStore, m: MatchInfo, now: int, parse: string -> Option<int>) returns (found: bool)
    ensures found <==> InFile(csv.lines, m, now, parse)
  {
    var upcoming := csv.GetUpcomingMatches(now, parse);
    var ls := UpcomingLines(csv.lines, now, parse);
    found := exists u :: u in upcoming && u.teams == m.teams && u.datetime == m.datetime;
    if !found {
      forall i | 0 <= i < |ls|
        ensures !(ls[i][2] == m.teams && ls[i][0] == m.datetime)
      {
        assert upcoming[i] in upcoming;
      }
    }
  }

  /** The predictions not yet in the file, in prediction order. */
  function NewMatches(lines: seq<seq<string>>, predictions: seq<MatchInfo>, now: int, parse: string -> Option<int>): seq<MatchInfo> {
    Filter(predictions, (p: MatchInfo) => !InFile(lines, p, now, parse))
  }

  /** The `forEach` filling `newMatches`. */
  method CollectNewMatches(csv: CsvStore, predictions: seq<MatchInfo>, now: int, parse: string -> Option<int>)
    returns (newMatches: seq<MatchInfo>)
    ensures newMatches == NewMatches(csv.lines, predictions, now, parse)
  {
    newMatches := [];
    for i := 0 to |predictions|
      invariant newMatches == NewMatches(csv.lines, predictions[..i], now, parse)
    {
      assert predictions[..i + 1][..i] == predictions[..i];
      var found := IsMatchInFile(csv, predictions[i], now, parse);
      if !found {
        newMatches := newMatches + [predictions[i]];
      }
    }
    assert predictions[..|predictions|] == predictions;
  }

  /** What the callback does: the prompt it sends, if any, whether a
      throwing prediction request aborted it, and the rows it hands to
      `appendRows`. */
  datatype Outcome = Outcome(prompt: Option<string>, aborted: bool, appended: seq<MatchInfo>)

  /** `onResponse` / `onFailure`. `replies(prompt)(k)` answers the k-th
      prediction request for that prompt, `None` when that request throws;
      the exception ends the callback before anything is written. */
  method OnResponse(db: Database, csv: CsvStore, response: FdResponse, replies: string -> nat -> Option<string>,
                    now: int, parse: string -> Option<int>) returns (out: Outcome)
    modifies csv
    ensures !response.Successful? || response.matches.None? ==>
      out == Outcome(None, false, []) && csv.lines == old(csv.lines) && csv.hashes == old(csv.hashes)
    ensures response.Successful? && response.matches.Some? ==>
      var prompt := PromptText(response.matches.value);
      out.prompt == Some(prompt)
      && (out.aborted <==> RetryThrows(Asked(replies(prompt)), 3))
      && (out.aborted ==> out.appended == [] && csv.lines == old(csv.lines) && csv.hashes == old(csv.hashes))
    ensures response.Successful? && response.matches.Some? && !out.aborted ==>
      var prompt := PromptText(response.matches.value);
      var predictions := RetryRun(db.tables, ParsedReplies(replies(prompt)), 3, 0).matches;
      out.appended == NewMatches(old(csv.lines), predictions, now, parse)
      && (out.appended == [] ==> csv.lines == old(csv.lines) && csv.hashes == old(csv.hashes))
      && (out.appended != [] ==>
            csv.hashes == AppendRun(csv.normalize, csv.digest, old(csv.hashes), out.appended).keys
            && csv.lines == old(csv.lines) + AppendRun(csv.normalize, csv.digest, old(csv.hashes), out.appended).written)
  {
    if !response.Successful? || response.matches.None? {
      return Outcome(None, false, []);
    }
    var prompt := PromptText(response.matches.value);
    var predictions, attempts, pauses := GetMatchPredictionsWithRetry(db, Asked(replies(prompt)), 3);
    if predictions.None? {
      return Outcome(Some(prompt), true, []);
    }
    var newMatches := CollectNewMatches(csv, predictions.value, now, parse);
    if newMatches != [] {
      csv.AppendRows(newMatches);
    }
    out := Outcome(Some(prompt), false, newMatches);
  }

  /** Every prediction handed to `appendRows` is new to the file and to the
      store, and every new one is handed on. */
  lemma NewMatchesAreExactlyTheUnseen(t: Tables, lines: seq<seq<string>>, replies: nat -> Option<string>,
                                      now: int, parse: string -> Option<int>, m: MatchInfo)
    ensures var predictions := RetryRun(t, ParsedReplies(replies), 3, 0).matches;
      m in NewMatches(lines, predictions, now, parse) <==>
        m in predictions && !InFile(lines, m, now, parse)
    ensures m in NewMatches(lines, RetryRun(t, ParsedReplies(replies), 3, 0).matches, now, parse) ==> !ExistsIn(t, m)
  {
    RetryReturnsOnlyNewMatches(t, ParsedReplies(replies), 3);
  }
}
