/** The match record shared by every service. The repository's versions of
    `MatchInfo` differ (six, nine and eleven fields); this record holds the
    union of their fields, with Kotlin's nullable fields as `Option`. */
module Dto {
  import opened Common

  datatype MatchInfo = MatchInfo(
    datetime: string,
    matchType: string,
    teams: string,
    predictedOutcome: Option<string>,
    actualOutcome: Option<string>,
    predictedScore: Option<string>,
    actualScore: Option<string>,
    odds: Option<string>,
    telegramMessageId: Option<string>,
    fixtureId: Option<string>,
    elapsed: Option<int>)

  /** Kotlin string templates print a null value as "null". */
  function Show(v: Option<string>): string {
    match v
    case Some(s) => s
    case None => "null"
  }
}
