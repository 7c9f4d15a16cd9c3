/** `ChatGPTService.kt`: reading match predictions out of the chat model's
    reply with one fixed regular expression, and asking again while replies
    parse to nothing. The regular expression is modelled as the list of its
    parts, matched with the backtracking order of `java.util.regex`. */
module ChatGPTService {
  import opened Common
  import opened Dto
  import opened DatabaseService

  /* ------------------------------------------------------- the expression */

  /** The expression as a chain of parts: literal text, `\s*`, or a group
      `(.+?)`, each followed by the rest of the expression. */
  datatype Pat = End | Lit(text: string, next: Pat) | Spaces(next: Pat) | Group(next: Pat)

  /** The expression of `parseMatchInfo`, one template line at a time. */
  const OddsPart: Pat := Lit("[Odd for Match Outcome]: [", Group(Lit("]", End)))
  const ScorePart: Pat := Lit("[Score]: [", Group(Lit("]", Spaces(OddsPart))))
  const OutcomePart: Pat := Lit("[Match Outcome]: [", Group(Lit("]", Spaces(ScorePart))))
  const TeamsPart: Pat := Lit("[Teams]: [", Group(Lit(" vs. ", Group(Lit("]", Spaces(OutcomePart))))))
  const TypePart: Pat := Lit("[Match Type]: [", Group(Lit("]", Spaces(TeamsPart))))
  const Pattern: Pat := Lit("[Match Start]: [", Group(Lit("]", Spaces(TypePart))))

  function GroupCount(p: Pat): nat {
    match p
    case End => 0
    case Lit(_, next) => GroupCount(next)
    case Spaces(next) => GroupCount(next)
    case Group(next) => 1 + GroupCount(next)
  }

  /** The fewest characters a match of `p` can span. */
  function MinLength(p: Pat): nat {
    match p
    case End => 0
    case Lit(t, next) => |t| + MinLength(next)
    case Spaces(next) => MinLength(next)
    case Group(next) => 1 + MinLength(next)
  }

  lemma PatternShape()
    ensures GroupCount(Pattern) == 7
    ensures MinLength(Pattern) > 0
    ensures GroupCount(OddsPart) == 1 && GroupCount(ScorePart) == 2 && GroupCount(OutcomePart) == 3
    ensures GroupCount(TeamsPart) == 5 && GroupCount(TypePart) == 6
  {
    assert GroupCount(OddsPart) == 1;
    assert GroupCount(ScorePart) == 2;
    assert GroupCount(OutcomePart) == 3;
    assert GroupCount(TeamsPart) == 5;
    assert GroupCount(TypePart) == 6;
  }

  /** The groups a match captured and the number of characters it spans. */
  datatype Match = Match(groups: seq<string>, length: nat)

  /** Number of leading `\s` characters. */
  function SpaceRun(s: string): (n: nat)
    ensures n <= |s|
    ensures forall i :: 0 <= i < n ==> IsRegexSpace(s[i])
    ensures n < |s| ==> !IsRegexSpace(s[n])
  {
    if s != [] && IsRegexSpace(s[0]) then 1 + SpaceRun(s[1..]) else 0
  }

  /** The first match of `p` at the start of `s` in backtracking order:
      a literal must be there, `\s*` tries its longest run first and `(.+?)`
      its shortest capture first, never across a line terminator. */
  function MatchAt(p: Pat, s: string): (r: Option<Match>)
    ensures r.Some? ==> MinLength(p) <= r.value.length <= |s|
    ensures r.Some? ==> |r.value.groups| == GroupCount(p)
    decreases p, 0
  {
    match p
    case End => Some(Match([], 0))
    case Lit(t, next) =>
      if t <= s then
        match MatchAt(next, s[|t|..])
        case None => None
        case Some(m) => Some(Match(m.groups, |t| + m.length))
      else None
    case Spaces(next) => TrySpaces(next, s, SpaceRun(s))
    case Group(next) => TryGroup(next, s, 1)
  }

  /** `\s*` followed by `next`, taking `j` spaces first, then fewer. */
  function TrySpaces(next: Pat, s: string, j: nat): (r: Option<Match>)
    requires j <= |s|
    ensures r.Some? ==> MinLength(next) <= r.value.length <= |s|
    ensures r.Some? ==> |r.value.groups| == GroupCount(next)
    decreases next, 1, j
  {
    match MatchAt(next, s[j..])
    case Some(m) => Some(Match(m.groups, j + m.length))
    case None => if j == 0 then None else TrySpaces(next, s, j - 1)
  }

  /** `(.+?)` followed by `next`, capturing `k` characters first, then more. */
  function TryGroup(next: Pat, s: string, k: nat): (r: Option<Match>)
    requires 1 <= k
    ensures r.Some? ==> MinLength(next) + 1 <= r.value.length <= |s|
    ensures r.Some? ==> |r.value.groups| == GroupCount(next) + 1
    decreases next, 1, |s| - k + 1
  {
    if k > |s| || IsLineTerminator(s[k - 1]) then None
    else
      match MatchAt(next, s[k..])
      case Some(m) => Some(Match([s[..k]] + m.groups, k + m.length))
      case None => TryGroup(next, s, k + 1)
  }

  /** `Regex.findAll`: the leftmost match, then the search resumes where it
      ended (one character further after an empty match). */
  function Scan(p: Pat, s: string): (r: seq<seq<string>>)
    ensures forall i :: 0 <= i < |r| ==> |r[i]| == GroupCount(p)
    decreases |s|, if MatchAt(p, s).Some? && MatchAt(p, s).value.length > 0 then 1 else 0
  {
    match MatchAt(p, s)
    case Some(m) =>
      if m.length > 0 then [m.groups] + Scan(p, s[m.length..])
      else [m.groups] + (if s == [] then [] else Scan(p, s[1..]))
    case None => if s == [] then [] else Scan(p, s[1..])
  }

  /* ----------------------------------------------------------- the records */

  /** Group `i`, trimmed; null when the match has no such group. */
  function Captured(groups: seq<string>, i: nat): Option<string> {
    if i < |groups| then Some(Trim(groups[i])) else None
  }

  /** The record `parseMatchInfo` builds from the captured groups. */
  function ToMatchInfo(groups: seq<string>): MatchInfo
  {
    MatchInfo(Captured(groups, 0).GetOr(""), Captured(groups, 1).GetOr(""),
      Show(Captured(groups, 2)) + " vs. " + Show(Captured(groups, 3)),
      Some(Captured(groups, 4).GetOr("")), None, Some(Captured(groups, 5).GetOr("")), None,
      Some(Captured(groups, 6).GetOr("")), None, None, None)
  }

  function Records(found: seq<seq<string>>): (r: seq<MatchInfo>)
    ensures |r| == |found|
    ensures forall i :: 0 <= i < |r| ==> r[i] == ToMatchInfo(found[i])
  {
    seq(|found|, i requires 0 <= i < |found| => ToMatchInfo(found[i]))
  }

  lemma RecordsCons(groups: seq<string>, found: seq<seq<string>>)
    ensures Records([groups] + found) == [ToMatchInfo(groups)] + Records(found)
  {
    var all := [groups] + found;
    var l, r := Records(all), [ToMatchInfo(groups)] + Records(found);
    assert |l| == |r|;
    forall i | 0 <= i < |l|
      ensures l[i] == r[i]
    {
      if i > 0 {
        assert all[i] == found[i - 1];
      }
    }
    assert l == r;
  }

  lemma RecordsSnoc(found: seq<seq<string>>, groups: seq<string>)
    ensures Records(found + [groups]) == Records(found) + [ToMatchInfo(groups)]
  {
    var l, r := Records(found + [groups]), Records(found) + [ToMatchInfo(groups)];
    forall i | 0 <= i < |l|
      ensures l[i] == r[i]
    {
      if i < |found| {
        assert (found + [groups])[i] == found[i];
      }
    }
  }

  /** What `parseMatchInfo` returns for a reply: a record per match, in order. */
  function Parse(text: string): seq<MatchInfo> {
    Records(Scan(Pattern, text))
  }

  /** Every parsed record carries a prediction only: no actual outcome or
      score and no message id; its fields are the trimmed groups, and its
      teams are the trimmed home and away names around " vs. ". */
  lemma ParsedRecordsArePredictions(text: string)
    ensures forall m :: m in Parse(text) ==>
      m.actualOutcome.None? && m.actualScore.None? && m.telegramMessageId.None?
      && m.predictedOutcome.Some? && m.predictedScore.Some? && m.odds.Some?
    ensures forall i :: 0 <= i < |Parse(text)| ==>
      var groups, m := Scan(Pattern, text)[i], Parse(text)[i];
      |groups| == 7
      && m.datetime == Trim(groups[0]) && m.matchType == Trim(groups[1])
      && m.teams == Trim(groups[2]) + " vs. " + Trim(groups[3])
      && m.predictedOutcome == Some(Trim(groups[4])) && m.predictedScore == Some(Trim(groups[5]))
      && m.odds == Some(Trim(groups[6]))
  {
    PatternShape();
  }

  /** One step of `findAll` for an expression that cannot match empty text. */
  lemma ScanStep(p: Pat, s: string)
    requires MinLength(p) > 0
    ensures MatchAt(p, s).Some? ==> Scan(p, s) == [MatchAt(p, s).value.groups] + Scan(p, s[MatchAt(p, s).value.length..])
    ensures MatchAt(p, s).None? && s != [] ==> Scan(p, s) == Scan(p, s[1..])
    ensures s == [] ==> Scan(p, s) == []
  {
  }

  lemma ParseUnfold(s: string)
    ensures MatchAt(Pattern, s).Some? ==>
      Parse(s) == [ToMatchInfo(MatchAt(Pattern, s).value.groups)] + Parse(s[MatchAt(Pattern, s).value.length..])
    ensures MatchAt(Pattern, s).None? && s != [] ==> Parse(s) == Parse(s[1..])
    ensures s == [] ==> Parse(s) == []
  {
    PatternShape();
    ScanStep(Pattern, s);
    if MatchAt(Pattern, s).Some? {
      var m := MatchAt(Pattern, s).value;
      RecordsCons(m.groups, Scan(Pattern, s[m.length..]));
    }
  }

  /** A step of the `findAll` loop that finds a match at `pos`: the match is
      kept and the search resumes after it. */
  lemma ScanFromMatch(p: Pat, text: string, pos: nat, m: Match, found: seq<seq<string>>)
    requires MinLength(p) > 0
    requires pos < |text| && MatchAt(p, text[pos..]) == Some(m)
    requires found + Scan(p, text[pos..]) == Scan(p, text)
    ensures 0 < m.length && pos + m.length <= |text|
    ensures (found + [m.groups]) + Scan(p, text[pos + m.length..]) == Scan(p, text)
  {
    ScanStep(p, text[pos..]);
    assert text[pos..][m.length..] == text[pos + m.length..];
    AppendAssoc(found, [m.groups], Scan(p, text[pos + m.length..]));
  }

  /** A step of the `findAll` loop with no match at `pos`: the search moves
      one character on. */
  lemma ScanFromNoMatch(p: Pat, text: string, pos: nat)
    requires MinLength(p) > 0
    requires pos < |text| && MatchAt(p, text[pos..]).None?
    ensures Scan(p, text[pos..]) == Scan(p, text[pos + 1..])
  {
    ScanStep(p, text[pos..]);
    assert text[pos..][1..] == text[pos + 1..];
  }

  lemma ScanAtEnd(p: Pat, text: string, found: seq<seq<string>>)
    requires MinLength(p) > 0
    requires found + Scan(p, text[|text|..]) == Scan(p, text)
    ensures found == Scan(p, text)
  {
    ScanStep(p, text[|text|..]);
    assert found + [] == found;
  }

  /** `Regex.findAll` for an expression that cannot match empty text: the
      groups of each match, in order. */
  method FindAll(p: Pat, text: string) returns (found: seq<seq<string>>)
    requires MinLength(p) > 0
    ensures found == Scan(p, text)
  {
    found := [];
    var pos := 0;
    assert text[0..] == text;
    while pos < |text|
      invariant 0 <= pos <= |text|
      invariant found + Scan(p, text[pos..]) == Scan(p, text)
      decreases |text| - pos
    {
      var m := MatchAt(p, text[pos..]);
      if m.Some? {
        ScanFromMatch(p, text, pos, m.value, found);
        found := found + [m.value.groups];
        pos := pos + m.value.length;
      } else {
        ScanFromNoMatch(p, text, pos);
        pos := pos + 1;
      }
    }
    ScanAtEnd(p, text, found);
  }

  /** `parseMatchInfo`: a record per match of the expression, in order. */
  method ParseMatchInfo(text: string) returns (records: seq<MatchInfo>)
    ensures records == Parse(text)
  {
    PatternShape();
    var matches := FindAll(Pattern, text);
    records := [];
    for i := 0 to |matches|
      invariant records == Records(matches[..i])
    {
      assert matches[..i + 1] == matches[..i] + [matches[i]];
      RecordsSnoc(matches[..i], matches[i]);
      records := records + [ToMatchInfo(matches[i])];
    }
    assert matches[..|matches|] == matches;
  }

  /** Where `findAll` finds nothing: no position of the text starts a match. */
  predicate NoBlockIn(text: string) {
    forall i :: 0 <= i <= |text| ==> MatchAt(Pattern, text[i..]).None?
  }

  /** A reply yields no record exactly when no complete block occurs in it. */
  lemma {:induction false} NoRecordsIffNoBlock(text: string)
    ensures Parse(text) == [] <==> NoBlockIn(text)
    decreases |text|
  {
    ParseUnfold(text);
    if MatchAt(Pattern, text).None? && text != [] {
      NoRecordsIffNoBlock(text[1..]);
      if NoBlockIn(text[1..]) {
        forall i | 0 <= i <= |text|
          ensures MatchAt(Pattern, text[i..]).None?
        {
          if i > 0 {
            assert text[i..] == text[1..][i - 1..];
          }
        }
      }
      if NoBlockIn(text) {
        forall i | 0 <= i <= |text[1..]|
          ensures MatchAt(Pattern, text[1..][i..]).None?
        {
          assert text[1..][i..] == text[i + 1..];
        }
      }
    } else {
      PatternShape();
      assert text[0..] == text;
    }
  }

  /* ------------------------------------------------------- the round trip */

  /** Writes the expression out with `fields` in its groups and one line
      break for each `\s*`. */
  function RenderParts(p: Pat, fields: seq<string>): string
    requires |fields| == GroupCount(p)
  {
    match p
    case End => []
    case Lit(t, next) => t + RenderParts(next, fields)
    case Spaces(next) => "\n" + RenderParts(next, fields)
    case Group(next) => fields[0] + RenderParts(next, fields[1..])
  }

  /** No proper suffix of `f` followed by `t` starts with `t`: a shorter
      capture of `f` cannot be followed by the literal `t`. */
  predicate NoEarlyLit(f: string, t: string) {
    forall k :: 1 <= k < |f| ==> !(t <= f[k..] + t)
  }

  predicate OneLine(f: string) {
    forall i :: 0 <= i < |f| ==> !IsLineTerminator(f[i])
  }

  /** When rendering `p` with `fields` reads back as exactly those fields:
      each group is followed by a literal it cannot run into early, and each
      `\s*` by a literal that does not start with a space. */
  predicate Renderable(p: Pat, fields: seq<string>)
    requires |fields| == GroupCount(p)
  {
    match p
    case End => true
    case Lit(_, next) => Renderable(next, fields)
    case Spaces(next) =>
      next.Lit? && next.text != [] && !IsRegexSpace(next.text[0]) && Renderable(next, fields)
    case Group(next) =>
      next.Lit? && next.text != []
      && fields[0] != [] && OneLine(fields[0]) && NoEarlyLit(fields[0], next.text)
      && Renderable(next, fields[1..])
  }

  /** A rendered `p` followed by anything matches with exactly `fields`. */
  lemma {:induction false} RenderThenMatch(p: Pat, fields: seq<string>, tail: string)
    requires |fields| == GroupCount(p)
    requires Renderable(p, fields)
    ensures MatchAt(p, RenderParts(p, fields) + tail) == Some(Match(fields, |RenderParts(p, fields)|))
    decreases p, 0
  {
    var s := RenderParts(p, fields) + tail;
    match p
    case End =>
    case Lit(t, next) =>
      assert s == t + (RenderParts(next, fields) + tail);
      assert s[|t|..] == RenderParts(next, fields) + tail;
      RenderThenMatch(next, fields, tail);
    case Spaces(next) =>
      var rest := RenderParts(next, fields);
      assert s == "\n" + (rest + tail);
      assert s[1] == next.text[0];
      assert SpaceRun(s[1..]) == 0;
      assert SpaceRun(s) == 1;
      assert s[1..] == rest + tail;
      RenderThenMatch(next, fields, tail);
    case Group(next) =>
      var rest := RenderParts(next, fields[1..]);
      assert s == fields[0] + (rest + tail);
      LazyGroupStops(next, fields[0], fields[1..], rest + tail, tail, 1);
      assert [fields[0]] + fields[1..] == fields;
  }

  /** The lazy group of a rendered block grows past every shorter capture
      and stops at exactly the field. */
  lemma {:induction false} LazyGroupStops(next: Pat, f: string, fields: seq<string>, after: string, tail: string, k: nat)
    requires |fields| == GroupCount(next)
    requires Renderable(next, fields)
    requires next.Lit? && next.text != []
    requires f != [] && OneLine(f) && NoEarlyLit(f, next.text)
    requires after == RenderParts(next, fields) + tail
    requires 1 <= k <= |f|
    ensures TryGroup(next, f + after, k) == Some(Match([f] + fields, |f| + |RenderParts(next, fields)|))
    decreases next, 1, |f| - k
  {
    var s := f + after;
    var t := next.text;
    assert s[k - 1] == f[k - 1];
    if k == |f| {
      assert s[k..] == after;
      assert s[..k] == f;
      RenderThenMatch(next, fields, tail);
    } else {
      var more := RenderParts(next.next, fields) + tail;
      assert after == t + more;
      assert s[k..] == (f[k..] + t) + more;
      assert !(t <= f[k..] + t);
      assert (f[k..] + t)[..|t|] == s[k..][..|t|];
      LazyGroupStops(next, f, fields, after, tail, k + 1);
    }
  }

  /** The seven fields of one reply block. */
  datatype Block = Block(start: string, matchType: string, home: string, away: string,
                         outcome: string, score: string, odds: string)

  function Fields(b: Block): seq<string> {
    [b.start, b.matchType, b.home, b.away, b.outcome, b.score, b.odds]
  }

  /** A block as the prompt asks the model to write it. */
  function RenderBlock(b: Block): string {
    PatternShape();
    RenderParts(Pattern, Fields(b))
  }

  /** The record a block stands for. */
  function Record(b: Block): MatchInfo {
    MatchInfo(b.start, b.matchType, b.home + " vs. " + b.away, Some(b.outcome), None,
      Some(b.score), None, Some(b.odds), None, None, None)
  }

  /** A field the template reads back unchanged: non-empty, trimmed, on one
      line and free of ']'. */
  predicate PlainField(f: string) {
    f != [] && IsTrimmed(f) && OneLine(f) && ']' !in f
  }

  /** Every field is plain, and the home team never runs into " vs. " early
      (so it contains no " vs. ", nor ends with a part of it such as " vs."). */
  predicate WellFormed(b: Block) {
    && PlainField(b.start) && PlainField(b.matchType) && PlainField(b.home) && PlainField(b.away)
    && PlainField(b.outcome) && PlainField(b.score) && PlainField(b.odds)
    && NoEarlyLit(b.home, " vs. ")
  }

  lemma NoBracketNoEarlyLit(f: string)
    requires ']' !in f
    ensures NoEarlyLit(f, "]")
  {
    forall k | 1 <= k < |f|
      ensures !("]" <= f[k..] + "]")
    {
      assert f[k] in f;
      assert (f[k..] + "]")[0] == f[k];
    }
  }

  lemma RenderableGroup(f: string, next: Pat, fields: seq<string>)
    requires |fields| == GroupCount(next) && Renderable(next, fields)
    requires next.Lit? && next.text != []
    requires f != [] && OneLine(f) && NoEarlyLit(f, next.text)
    ensures Renderable(Group(next), [f] + fields)
  {
    assert ([f] + fields)[1..] == fields;
  }

  /** One template line: a caption, a field, then "]" and what follows. */
  lemma RenderableLine(caption: string, f: string, after: Pat, fields: seq<string>)
    requires |fields| == GroupCount(after) && Renderable(after, fields)
    requires f != [] && OneLine(f) && ']' !in f
    ensures GroupCount(Lit(caption, Group(Lit("]", after)))) == |[f] + fields|
    ensures Renderable(Lit(caption, Group(Lit("]", after))), [f] + fields)
  {
    NoBracketNoEarlyLit(f);
    RenderableGroup(f, Lit("]", after), fields);
  }

  lemma RenderableBreak(next: Pat, fields: seq<string>)
    requires |fields| == GroupCount(next) && Renderable(next, fields)
    requires next.Lit? && next.text != [] && next.text[0] == '['
    ensures Renderable(Spaces(next), fields)
  {
  }

  lemma WellFormedRenderable(b: Block)
    requires WellFormed(b)
    ensures GroupCount(Pattern) == 7
    ensures Renderable(Pattern, Fields(b))
  {
    PatternShape();
    var f6 := [b.odds];
    var f5 := [b.score] + f6;
    var f4 := [b.outcome] + f5;
    var f3 := [b.away] + f4;
    var f2 := [b.home] + f3;
    var f1 := [b.matchType] + f2;
    assert Fields(b) == [b.start] + f1;
    RenderableLine("[Odd for Match Outcome]: [", b.odds, End, []);
    assert [b.odds] + [] == f6;
    RenderableBreak(OddsPart, f6);
    RenderableLine("[Score]: [", b.score, Spaces(OddsPart), f6);
    RenderableBreak(ScorePart, f5);
    RenderableLine("[Match Outcome]: [", b.outcome, Spaces(ScorePart), f5);
    RenderableBreak(OutcomePart, f4);
    RenderableLine(" vs. ", b.away, Spaces(OutcomePart), f4);
    RenderableGroup(b.home, Lit(" vs. ", Group(Lit("]", Spaces(OutcomePart)))), f3);
    RenderableBreak(TeamsPart, f2);
    RenderableLine("[Match Type]: [", b.matchType, Spaces(TeamsPart), f2);
    RenderableBreak(TypePart, f1);
    RenderableLine("[Match Start]: [", b.start, Spaces(TypePart), f1);
  }

  /** A well-formed block, followed by anything, matches with its own fields. */
  lemma BlockMatches(b: Block, tail: string)
    requires WellFormed(b)
    ensures MatchAt(Pattern, RenderBlock(b) + tail) == Some(Match(Fields(b), |RenderBlock(b)|))
  {
    WellFormedRenderable(b);
    RenderThenMatch(Pattern, Fields(b), tail);
  }

  /** Trimming leaves well-formed fields as they are. */
  lemma FieldsRecord(b: Block)
    requires WellFormed(b)
    ensures ToMatchInfo(Fields(b)) == Record(b)
  {
    TrimTrimmed(b.start);
    TrimTrimmed(b.matchType);
    TrimTrimmed(b.home);
    TrimTrimmed(b.away);
    TrimTrimmed(b.outcome);
    TrimTrimmed(b.score);
    TrimTrimmed(b.odds);
  }

  /** A well-formed block followed by `tail` parses to its record, then
      whatever `tail` parses to. */
  lemma BlockThenParse(b: Block, tail: string)
    requires WellFormed(b)
    ensures Parse(RenderBlock(b) + tail) == [Record(b)] + Parse(tail)
  {
    var r := RenderBlock(b);
    BlockMatches(b, tail);
    ParseUnfold(r + tail);
    assert (r + tail)[|r|..] == tail;
    FieldsRecord(b);
  }

  /** Render one block, then parse it: the record holds exactly its fields. */
  lemma RoundTrip(b: Block)
    requires WellFormed(b)
    ensures Parse(RenderBlock(b)) == [Record(b)]
  {
    BlockThenParse(b, []);
    assert RenderBlock(b) + [] == RenderBlock(b);
    ParseUnfold([]);
  }

  /** A reply: the blocks, each followed by a separator free of '['. */
  function Reply(blocks: seq<Block>, sep: string): string {
    if blocks == [] then [] else RenderBlock(blocks[0]) + sep + Reply(blocks[1..], sep)
  }

  /** Text without '[' cannot start a block, so `findAll` passes over it. */
  lemma {:induction false} SkipPlainText(p: string, s: string)
    requires '[' !in p
    ensures Parse(p + s) == Parse(s)
    decreases |p|
  {
    if p == [] {
      assert p + s == s;
    } else {
      assert (p + s)[0] == p[0] != '[';
      assert "[Match Start]: ["[0] == '[';
      assert MatchAt(Pattern, p + s).None?;
      ParseUnfold(p + s);
      assert (p + s)[1..] == p[1..] + s;
      SkipPlainText(p[1..], s);
    }
  }

  /** Parsing a reply reads its first block, then the rest. */
  lemma ReplyStep(blocks: seq<Block>, sep: string)
    requires blocks != [] && WellFormed(blocks[0]) && '[' !in sep
    ensures Parse(Reply(blocks, sep)) == [Record(blocks[0])] + Parse(Reply(blocks[1..], sep))
  {
    var rest := Reply(blocks[1..], sep);
    assert Reply(blocks, sep) == RenderBlock(blocks[0]) + (sep + rest);
    BlockThenParse(blocks[0], sep + rest);
    SkipPlainText(sep, rest);
  }

  function BlockRecords(blocks: seq<Block>): (r: seq<MatchInfo>)
    ensures |r| == |blocks| && forall i :: 0 <= i < |blocks| ==> r[i] == Record(blocks[i])
  {
    seq(|blocks|, i requires 0 <= i < |blocks| => Record(blocks[i]))
  }

  lemma BlockRecordsCons(blocks: seq<Block>)
    requires blocks != []
    ensures BlockRecords(blocks) == [Record(blocks[0])] + BlockRecords(blocks[1..])
  {
    var r := [Record(blocks[0])] + BlockRecords(blocks[1..]);
    forall i | 0 <= i < |blocks|
      ensures r[i] == Record(blocks[i])
    {
      if i > 0 {
        assert blocks[1..][i - 1] == blocks[i];
      }
    }
  }

  /** A reply made of well-formed blocks parses to their records, in the
      order the blocks occur. */
  lemma {:induction false} RepliesRoundTrip(blocks: seq<Block>, sep: string)
    requires forall b :: b in blocks ==> WellFormed(b)
    requires '[' !in sep
    ensures Parse(Reply(blocks, sep)) == BlockRecords(blocks)
    decreases |blocks|
  {
    if blocks == [] {
      ParseUnfold([]);
    } else {
      assert forall c :: c in blocks[1..] ==> c in blocks;
      ReplyStep(blocks, sep);
      RepliesRoundTrip(blocks[1..], sep);
      BlockRecordsCons(blocks);
    }
  }

  /** A reply without any '[' yields no record. */
  lemma NoBracketNoRecords(text: string)
    requires '[' !in text
    ensures Parse(text) == []
  {
    SkipPlainText(text, []);
    assert text + [] == text;
    ParseUnfold([]);
  }

  /* ------------------------------------------------------------ the retry */

  datatype RetryResult = RetryResult(matches: seq<MatchInfo>, attempts: nat, pauses: nat)

  /** `getMatchPredictionsFromChatGPT` on the reply its request gets: `None`
      when the request throws (the HTTP call, or `choices.first()` on an
      empty list), otherwise the records `parseMatchInfo` reads from the
      reply. */
  function ReplyRecords(reply: Option<string>): (r: Option<seq<MatchInfo>>)
    ensures r.None? <==> reply.None?
  {
    match reply
    case None => None
    case Some(text) => Some(Parse(text))
  }

  /** `getMatchPredictionsFromChatGPT` for each attempt, where `replies(i)`
      answers the request of attempt i. */
  function Asked(replies: nat -> Option<string>): nat -> Option<seq<MatchInfo>> {
    (i: nat) => ReplyRecords(replies(i))
  }

  /** The records of each attempt, where one that throws counts as none;
      `RetryThrows` says whether the loop ever reaches such an attempt. */
  function Answered(ask: nat -> Option<seq<MatchInfo>>): nat -> seq<MatchInfo> {
    (i: nat) => if ask(i).None? then [] else ask(i).value
  }

  /** The records parsed from the reply to each attempt. */
  function ParsedReplies(replies: nat -> Option<string>): nat -> seq<MatchInfo> {
    Answered(Asked(replies))
  }

  /** In the attempts from `attempt` on, the loop reaches one whose request
      throws before any attempt yields records. */
  predicate ThrowsFrom(parsed: nat -> seq<MatchInfo>, ask: nat -> Option<seq<MatchInfo>>, retries: int, attempt: nat)
    decreases retries - attempt
  {
    if attempt >= retries then false
    else if ask(attempt).None? then true
    else if parsed(attempt) != [] then false
    else ThrowsFrom(parsed, ask, retries, attempt + 1)
  }

  /** Some attempt the loop makes throws, and the exception leaves
      `getMatchPredictionsWithRetry` with no result. */
  predicate RetryThrows(ask: nat -> Option<seq<MatchInfo>>, retries: int) {
    ThrowsFrom(Answered(ask), ask, retries, 0)
  }

  /** `filterNot { DatabaseService.matchExists(it) }`: the records not yet
      stored, in their order. */
  function NotStored(t: Tables, ms: seq<MatchInfo>): seq<MatchInfo> {
    Filter(ms, (m: MatchInfo) => !ExistsIn(t, m))
  }

  /** `getMatchPredictionsWithRetry` from attempt `attempt` on, where
      `parsed(i)` is what the reply to attempt i parses to; each attempt that
      parses to nothing is followed by a pause. */
  function RetryRun(t: Tables, parsed: nat -> seq<MatchInfo>, retries: int, attempt: nat): RetryResult
    decreases retries - attempt
  {
    if attempt >= retries then RetryResult([], attempt, attempt)
    else if parsed(attempt) != [] then
      RetryResult(NotStored(t, parsed(attempt)), attempt + 1, attempt)
    else RetryRun(t, parsed, retries, attempt + 1)
  }

  function Max0(i: int): nat {
    if i < 0 then 0 else i
  }

  /** The attempts made stay within `retries`, and every attempt before the
      last one parsed to nothing. */
  lemma {:induction false} RetryRunBounds(t: Tables, parsed: nat -> seq<MatchInfo>, retries: int, attempt: nat)
    requires attempt <= Max0(retries)
    ensures var r := RetryRun(t, parsed, retries, attempt);
      && attempt <= r.attempts <= Max0(retries)
      && forall i :: attempt <= i < r.attempts - 1 ==> parsed(i) == []
    decreases retries - attempt
  {
    if attempt < retries && parsed(attempt) == [] {
      RetryRunBounds(t, parsed, retries, attempt + 1);
    }
  }

  /** The loop makes at least the attempts before `attempt`. */
  lemma {:induction false} RetryRunFrom(t: Tables, parsed: nat -> seq<MatchInfo>, retries: int, attempt: nat)
    ensures attempt <= RetryRun(t, parsed, retries, attempt).attempts
    decreases retries - attempt
  {
    if attempt < retries && parsed(attempt) == [] {
      RetryRunFrom(t, parsed, retries, attempt + 1);
    }
  }

  /** When attempt `k` parses to something, the loop stops at the first such
      attempt and returns its records not yet stored, after one pause per
      earlier attempt. */
  lemma {:induction false} RetryRunFound(t: Tables, parsed: nat -> seq<MatchInfo>, retries: int, attempt: nat, k: nat)
    requires attempt <= k < retries && parsed(k) != []
    ensures var r := RetryRun(t, parsed, retries, attempt);
      && r.attempts >= 1 && parsed(r.attempts - 1) != []
      && r.matches == NotStored(t, parsed(r.attempts - 1))
      && r.pauses == r.attempts - 1
    decreases retries - attempt
  {
    if parsed(attempt) == [] {
      RetryRunFound(t, parsed, retries, attempt + 1, k);
    }
  }

  /** When every reply parses to nothing, all `retries` attempts and pauses
      are made and nothing is returned. */
  lemma {:induction false} RetryRunNothing(t: Tables, parsed: nat -> seq<MatchInfo>, retries: int, attempt: nat)
    requires attempt <= Max0(retries)
    requires forall i :: attempt <= i < retries ==> parsed(i) == []
    ensures RetryRun(t, parsed, retries, attempt) == RetryResult([], Max0(retries), Max0(retries))
    decreases retries - attempt
  {
    if attempt < retries {
      RetryRunNothing(t, parsed, retries, attempt + 1);
    }
  }

  /** At most `retries` attempts; every attempt but the last parsed to
      nothing; the first reply that parses to something ends the loop, and
      its records not yet stored are returned; when every reply parses to
      nothing, exactly `retries` attempts and pauses are made and nothing
      is returned. */
  lemma RetryRunSpec(t: Tables, parsed: nat -> seq<MatchInfo>, retries: int, attempt: nat)
    requires attempt <= Max0(retries)
    ensures var r := RetryRun(t, parsed, retries, attempt);
      && attempt <= r.attempts <= Max0(retries)
      && (forall i :: attempt <= i < r.attempts - 1 ==> parsed(i) == [])
      && ((exists i :: attempt <= i < retries && parsed(i) != []) ==>
            r.attempts >= 1 && parsed(r.attempts - 1) != []
            && r.matches == NotStored(t, parsed(r.attempts - 1))
            && r.pauses == r.attempts - 1)
      && ((forall i :: attempt <= i < retries ==> parsed(i) == []) ==>
            r == RetryResult([], Max0(retries), Max0(retries)))
  {
    RetryRunBounds(t, parsed, retries, attempt);
    if exists i :: attempt <= i < retries && parsed(i) != [] {
      var k :| attempt <= k < retries && parsed(k) != [];
      RetryRunFound(t, parsed, retries, attempt, k);
    } else {
      RetryRunNothing(t, parsed, retries, attempt);
    }
  }

  /** No returned record is already stored. */
  lemma RetryReturnsOnlyNewMatches(t: Tables, parsed: nat -> seq<MatchInfo>, retries: int)
    ensures forall m :: m in RetryRun(t, parsed, retries, 0).matches ==> !ExistsIn(t, m)
  {
    RetryRunSpec(t, parsed, retries, 0);
  }

  /** An attempt can only throw after every earlier attempt yielded no
      records, so a throwing run loses no records it had already found. */
  lemma ThrowFollowsEmptyReplies(t: Tables, ask: nat -> Option<seq<MatchInfo>>, retries: int, k: nat)
    requires k < RetryRun(t, Answered(ask), retries, 0).attempts && ask(k).None?
    ensures forall j :: 0 <= j < k ==> ask(j).None? || ask(j).value == []
  {
    RetryRunBounds(t, Answered(ask), retries, 0);
    forall j | 0 <= j < k
      ensures ask(j).None? || ask(j).value == []
    {
      assert Answered(ask)(j) == [];
    }
  }

  /** The run throws exactly when one of the attempts `RetryRun` makes, from
      `attempt` on, is a request that throws. */
  lemma {:induction false} ThrowsFromIff(t: Tables, parsed: nat -> seq<MatchInfo>, ask: nat -> Option<seq<MatchInfo>>, retries: int, attempt: nat)
    requires attempt <= Max0(retries)
    requires forall i :: ask(i).None? ==> parsed(i) == []
    ensures ThrowsFrom(parsed, ask, retries, attempt) <==>
      exists k :: attempt <= k < RetryRun(t, parsed, retries, attempt).attempts && ask(k).None?
    decreases retries - attempt
  {
    if attempt < retries && parsed(attempt) == [] {
      RetryRunBounds(t, parsed, retries, attempt + 1);
      if ask(attempt).Some? {
        ThrowsFromIff(t, parsed, ask, retries, attempt + 1);
      }
    }
  }

  /** `RetryThrows` in the terms of the loop: some attempt made throws. */
  lemma RetryThrowsIff(t: Tables, ask: nat -> Option<seq<MatchInfo>>, retries: int)
    ensures RetryThrows(ask, retries) <==>
      exists k :: 0 <= k < RetryRun(t, Answered(ask), retries, 0).attempts && ask(k).None?
  {
    ThrowsFromIff(t, Answered(ask), ask, retries, 0);
  }

  /** `getMatchPredictionsFromChatGPT`: the request throws when it gets no
      reply; otherwise `parseMatchInfo` reads the records from the reply. */
  method GetMatchPredictionsFromChatGPT(reply: Option<string>) returns (parsed: Option<seq<MatchInfo>>)
    ensures parsed.None? <==> reply.None?
    ensures parsed.Some? ==> parsed.value == Parse(reply.value)
  {
    if reply.None? {
      return None;
    }
    var records := ParseMatchInfo(reply.value);
    parsed := Some(records);
  }

  /** `getMatchPredictionsWithRetry`: asks and keeps the records
      `matchExists` does not know. `ask(i)` is what
      `getMatchPredictionsFromChatGPT` gives on attempt i (`Asked` composes
      it from the replies), `None` when it throws, which ends the loop at
      once and leaves no result. */
  method GetMatchPredictionsWithRetry(db: Database, ask: nat -> Option<seq<MatchInfo>>, retries: int)
    returns (matches: Option<seq<MatchInfo>>, attempts: nat, pauses: nat)
    ensures matches.None? <==> RetryThrows(ask, retries)
    ensures matches.Some? ==>
      RetryResult(matches.value, attempts, pauses) == RetryRun(db.tables, Answered(ask), retries, 0)
    ensures matches.None? ==>
      1 <= attempts <= RetryRun(db.tables, Answered(ask), retries, 0).attempts
      && ask(attempts - 1).None? && pauses == attempts - 1
      && forall j :: 0 <= j < attempts - 1 ==> ask(j).Some?
  {
    ghost var run := RetryRun(db.tables, Answered(ask), retries, 0);
    attempts, pauses := 0, 0;
    while attempts < retries
      invariant attempts <= Max0(retries) && pauses == attempts
      invariant RetryRun(db.tables, Answered(ask), retries, attempts) == run
      invariant ThrowsFrom(Answered(ask), ask, retries, attempts) == RetryThrows(ask, retries)
      invariant forall j :: 0 <= j < attempts ==> ask(j).Some?
      decreases retries - attempts
    {
      var answer := ask(attempts);
      if answer.None? {
        RetryRunFrom(db.tables, Answered(ask), retries, attempts + 1);
        return None, attempts + 1, pauses;
      }
      var parsed := answer.value;
      if parsed != [] {
        matches := Some(NotStored(db.tables, parsed));
        attempts := attempts + 1;
        return;
      }
      attempts := attempts + 1;
      pauses := pauses + 1;
    }
    matches := Some([]);
  }



}
