/** `CSVService.kt`: the predictions file with a header line, and the set
    of match keys that keeps duplicates out of it. The file is its list of
    lines, each a list of cells; Unicode normalisation and SHA-256 are
    functions the store is given. */
module CSVService {
  import opened Common
  import opened Dto

  const Header: seq<string> := ["DateTime", "MatchType", "Teams", "Outcome", "Score", "Odds"]

  /** `generateMatchHash`: the digest of the normalised datetime, match type
      and teams joined by '-'. */
  function MatchKey(normalize: string -> string, digest: string -> string, m: MatchInfo): string {
    digest(normalize(m.datetime) + "-" + normalize(m.matchType) + "-" + normalize(m.teams))
  }

  /** The six normalised cells `appendRows` writes for a record. */
  function Cells(normalize: string -> string, m: MatchInfo): (cells: seq<string>)
    ensures |cells| == 6
  {
    [normalize(m.datetime), normalize(m.matchType), normalize(m.teams),
     normalize(m.predictedOutcome.GetOr("")), normalize(m.predictedScore.GetOr("")), normalize(m.odds.GetOr(""))]
  }

  /** The record a six-cell line is read back as. */
  function LineRecord(line: seq<string>): MatchInfo
    requires |line| == 6
  {
    MatchInfo(line[0], line[1], line[2], Some(line[3]), None, Some(line[4]), None, Some(line[5]), None, None, None)
  }

  /** The lines after the header (`drop(1)`). */
  function Body(lines: seq<seq<string>>): seq<seq<string>> {
    if lines == [] then [] else lines[1..]
  }

  /** The keys `loadExistingMatchesHashes` collects: one per six-cell line after the header. */
  function LoadedKeys(normalize: string -> string, digest: string -> string, lines: seq<seq<string>>): set<string> {
    set i | 1 <= i < |lines| && |lines[i]| == 6 :: MatchKey(normalize, digest, LineRecord(lines[i]))
  }

  /** The keys of the six-cell lines after the header and before line `n`,
      gathered line by line as `loadExistingMatchesHashes` does. */
  function LoadedBefore(normalize: string -> string, digest: string -> string, lines: seq<seq<string>>, n: nat): set<string>
    decreases n
  {
    if n <= 1 then {}
    else
      LoadedBefore(normalize, digest, lines, n - 1)
      + (if n - 1 < |lines| && |lines[n - 1]| == 6 then {MatchKey(normalize, digest, LineRecord(lines[n - 1]))} else {})
  }

  lemma {:induction false} LoadedBeforeMembers(normalize: string -> string, digest: string -> string, lines: seq<seq<string>>, n: nat, k: string)
    ensures k in LoadedBefore(normalize, digest, lines, n) <==>
      exists i :: 1 <= i < n && i < |lines| && |lines[i]| == 6 && MatchKey(normalize, digest, LineRecord(lines[i])) == k
    decreases n
  {
    if n > 1 {
      LoadedBeforeMembers(normalize, digest, lines, n - 1, k);
    }
  }

  /** Gathering up to the end gives the keys of every six-cell line. */
  lemma LoadedBeforeAll(normalize: string -> string, digest: string -> string, lines: seq<seq<string>>, n: nat)
    requires n >= |lines|
    ensures LoadedBefore(normalize, digest, lines, n) == LoadedKeys(normalize, digest, lines)
  {
    forall k
      ensures k in LoadedBefore(normalize, digest, lines, n) <==> k in LoadedKeys(normalize, digest, lines)
    {
      LoadedBeforeMembers(normalize, digest, lines, n, k);
    }
  }


  /* ------------------------------------------------------------ appending */

  /** The key set and the lines written by `appendRows`. */
  datatype Appended = Appended(keys: set<string>, written: seq<seq<string>>)

  /** `appendRows` over `rows` starting from key set `keys`: a row is written,
      and its key added, when its key is not yet in the set. */
  function AppendRun(normalize: string -> string, digest: string -> string, keys: set<string>, rows: seq<MatchInfo>): Appended
    decreases |rows|
  {
    if rows == [] then Appended(keys, [])
    else
      var before := AppendRun(normalize, digest, keys, rows[..|rows| - 1]);
      var row := rows[|rows| - 1];
      var key := MatchKey(normalize, digest, row);
      if key in before.keys then before
      else Appended(before.keys + {key}, before.written + [Cells(normalize, row)])
  }

  /** The keys of `rows`. */
  function KeysOf(normalize: string -> string, digest: string -> string, rows: seq<MatchInfo>): set<string> {
    set i | 0 <= i < |rows| :: MatchKey(normalize, digest, rows[i])
  }

  /** After `appendRows` the key set is the old one plus the key of every
      row: it only grows, and `matchExists` holds for every appended row. */
  lemma {:induction false} AppendKeys(normalize: string -> string, digest: string -> string, keys: set<string>, rows: seq<MatchInfo>)
    ensures AppendRun(normalize, digest, keys, rows).keys == keys + KeysOf(normalize, digest, rows)
    decreases |rows|
  {
    if rows != [] {
      AppendKeys(normalize, digest, keys, rows[..|rows| - 1]);
      KeysOfSnoc(normalize, digest, rows);
    }
  }

  lemma KeysOfSnoc(normalize: string -> string, digest: string -> string, rows: seq<MatchInfo>)
    requires rows != []
    ensures KeysOf(normalize, digest, rows) ==
      KeysOf(normalize, digest, rows[..|rows| - 1]) + {MatchKey(normalize, digest, rows[|rows| - 1])}
  {
    var init := rows[..|rows| - 1];
    var last := MatchKey(normalize, digest, rows[|rows| - 1]);
    forall k
      ensures k in KeysOf(normalize, digest, rows) <==> k in KeysOf(normalize, digest, init) || k == last
    {
      if k in KeysOf(normalize, digest, init) {
        var i :| 0 <= i < |init| && MatchKey(normalize, digest, init[i]) == k;
        assert rows[i] == init[i];
      }
      if k in KeysOf(normalize, digest, rows) {
        var i :| 0 <= i < |rows| && MatchKey(normalize, digest, rows[i]) == k;
        if i < |init| {
          assert init[i] == rows[i];
        }
      }
    }
  }

  /** Row i is the first of `rows` with its key, and that key was not known before. */
  predicate FirstNew(normalize: string -> string, digest: string -> string, keys: set<string>, rows: seq<MatchInfo>, i: int) {
    0 <= i < |rows|
    && MatchKey(normalize, digest, rows[i]) !in keys
    && forall j :: 0 <= j < i ==> MatchKey(normalize, digest, rows[j]) != MatchKey(normalize, digest, rows[i])
  }

  function Range(n: nat): (r: seq<int>)
    ensures |r| == n
    ensures forall i :: 0 <= i < n ==> r[i] == i
  {
    seq(n, i => i)
  }

  /** The positions of the rows that `appendRows` writes, in order. */
  function FirstNewIndices(normalize: string -> string, digest: string -> string, keys: set<string>, rows: seq<MatchInfo>): seq<int> {
    Filter(Range(|rows|), (i: int) => FirstNew(normalize, digest, keys, rows, i))
  }

  function CellsAt(normalize: string -> string, rows: seq<MatchInfo>, indices: seq<int>): seq<seq<string>>
    requires forall k :: 0 <= k < |indices| ==> 0 <= indices[k] < |rows|
  {
    seq(|indices|, k requires 0 <= k < |indices| => Cells(normalize, rows[indices[k]]))
  }

  lemma FirstNewIndicesSnoc(normalize: string -> string, digest: string -> string, keys: set<string>, rows: seq<MatchInfo>)
    requires rows != []
    ensures var init := rows[..|rows| - 1];
      FirstNewIndices(normalize, digest, keys, rows) ==
        FirstNewIndices(normalize, digest, keys, init)
        + (if FirstNew(normalize, digest, keys, rows, |init|) then [|init|] else [])
  {
    var init := rows[..|rows| - 1];
    var p := (i: int) => FirstNew(normalize, digest, keys, rows, i);
    var q := (i: int) => FirstNew(normalize, digest, keys, init, i);
    assert Range(|rows|)[..|init|] == Range(|init|);
    forall x | x in Range(|init|)
      ensures p(x) == q(x)
    {
      assert 0 <= x < |init|;
      assert forall j :: 0 <= j <= x ==> rows[j] == init[j];
    }
    FilterCongruent(Range(|init|), p, q);
  }

  lemma FilterIndicesInRange(normalize: string -> string, digest: string -> string, keys: set<string>, rows: seq<MatchInfo>)
    ensures forall k :: 0 <= k < |FirstNewIndices(normalize, digest, keys, rows)| ==>
      0 <= FirstNewIndices(normalize, digest, keys, rows)[k] < |rows|
  {
    var ix := FirstNewIndices(normalize, digest, keys, rows);
    forall k | 0 <= k < |ix|
      ensures 0 <= ix[k] < |rows|
    {
      assert ix[k] in ix;
    }
  }

  /** The last row is the first with its key exactly when its key is
      neither in `keys` nor the key of an earlier row. */
  lemma FirstNewLast(normalize: string -> string, digest: string -> string, keys: set<string>, rows: seq<MatchInfo>)
    requires rows != []
    ensures FirstNew(normalize, digest, keys, rows, |rows| - 1) <==>
      MatchKey(normalize, digest, rows[|rows| - 1]) !in keys + KeysOf(normalize, digest, rows[..|rows| - 1])
  {
    var init := rows[..|rows| - 1];
    var key := MatchKey(normalize, digest, rows[|rows| - 1]);
    if key in KeysOf(normalize, digest, init) {
      var i :| 0 <= i < |init| && MatchKey(normalize, digest, init[i]) == key;
      assert rows[i] == init[i];
    }
    if !FirstNew(normalize, digest, keys, rows, |init|) && key !in keys {
      var j :| 0 <= j < |init| && MatchKey(normalize, digest, rows[j]) == key;
      assert init[j] == rows[j];
      assert key in KeysOf(normalize, digest, init);
    }
  }

  /** `appendRows` writes exactly the rows whose key is new, both to the set
      and to the call: of two rows with the same key, the later is skipped.
      Each written line holds the normalised cells of its row, in row order. */
  lemma {:induction false} AppendWritesFirstNew(normalize: string -> string, digest: string -> string, keys: set<string>, rows: seq<MatchInfo>)
    ensures forall k :: 0 <= k < |FirstNewIndices(normalize, digest, keys, rows)| ==>
      0 <= FirstNewIndices(normalize, digest, keys, rows)[k] < |rows|
    ensures AppendRun(normalize, digest, keys, rows).written ==
      CellsAt(normalize, rows, FirstNewIndices(normalize, digest, keys, rows))
    decreases |rows|
  {
    FilterIndicesInRange(normalize, digest, keys, rows);
    if rows != [] {
      var init := rows[..|rows| - 1];
      var row := rows[|rows| - 1];
      AppendWritesFirstNew(normalize, digest, keys, init);
      AppendKeys(normalize, digest, keys, init);
      FirstNewIndicesSnoc(normalize, digest, keys, rows);
      var key := MatchKey(normalize, digest, row);
      var before := AppendRun(normalize, digest, keys, init);
      FirstNewLast(normalize, digest, keys, rows);
      var ixInit := FirstNewIndices(normalize, digest, keys, init);
      var ix := FirstNewIndices(normalize, digest, keys, rows);
      forall k | 0 <= k < |ixInit|
        ensures Cells(normalize, rows[ixInit[k]]) == Cells(normalize, init[ixInit[k]])
      {
        assert ixInit[k] in ixInit;
      }
      if key in before.keys {
        assert ix == ixInit;
      } else {
        assert ix == ixInit + [|init|];
      }
    }
  }

  /** A row is written exactly when it is the first of the call with its
      key and that key was not known before. */
  lemma WrittenIff(normalize: string -> string, digest: string -> string, keys: set<string>, rows: seq<MatchInfo>, i: int)
    requires 0 <= i < |rows|
    ensures i in FirstNewIndices(normalize, digest, keys, rows) <==>
      MatchKey(normalize, digest, rows[i]) !in keys
      && forall j :: 0 <= j < i ==> MatchKey(normalize, digest, rows[j]) != MatchKey(normalize, digest, rows[i])
  {
    assert Range(|rows|)[i] == i;
  }

  /** Records that differ only in outcome, score or odds share a key, so
      the second of them is not written. */
  lemma PredictionsDoNotMakeANewRow(normalize: string -> string, digest: string -> string, keys: set<string>,
                                    m: MatchInfo, outcome: Option<string>, score: Option<string>, odds: Option<string>)
    ensures var other := m.(predictedOutcome := outcome, predictedScore := score, odds := odds);
      AppendRun(normalize, digest, keys, [m, other]).written ==
        AppendRun(normalize, digest, keys, [m]).written
  {
    var other := m.(predictedOutcome := outcome, predictedScore := score, odds := odds);
    assert [m, other][..1] == [m];
    assert [m][..0] == [];
  }

  /* -------------------------------------------------------- reading back */

  /** `normalize` changes nothing in text it produced (NFD with marks removed
      is stable). */
  ghost predicate Idempotent(normalize: string -> string) {
    forall s :: normalize(normalize(s)) == normalize(s)
  }

  /** A written line read back has the key of the record it was written from. */
  lemma ReadBackSameKey(normalize: string -> string, digest: string -> string, m: MatchInfo)
    requires Idempotent(normalize)
    ensures MatchKey(normalize, digest, LineRecord(Cells(normalize, m))) == MatchKey(normalize, digest, m)
  {
  }

  /** If the key set agrees with the file before `appendRows`, it still
      agrees after: reloading the file gives the set the store holds. */
  lemma {:induction false} AppendKeepsKeysInAgreement(normalize: string -> string, digest: string -> string,
                                                    lines: seq<seq<string>>, rows: seq<MatchInfo>)
    requires Idempotent(normalize)
    requires lines != []
    ensures LoadedKeys(normalize, digest, lines + AppendRun(normalize, digest, LoadedKeys(normalize, digest, lines), rows).written)
      == AppendRun(normalize, digest, LoadedKeys(normalize, digest, lines), rows).keys
    decreases |rows|
  {
    var keys := LoadedKeys(normalize, digest, lines);
    if rows == [] {
      assert lines + [] == lines;
    } else {
      var init := rows[..|rows| - 1];
      var row := rows[|rows| - 1];
      AppendKeepsKeysInAgreement(normalize, digest, lines, init);
      var before := AppendRun(normalize, digest, keys, init);
      var key := MatchKey(normalize, digest, row);
      if key !in before.keys {
        var file := lines + before.written;
        var file' := lines + (before.written + [Cells(normalize, row)]);
        assert file' == file + [Cells(normalize, row)];
        ReadBackSameKey(normalize, digest, row);
        forall k
          ensures k in LoadedKeys(normalize, digest, file') <==> k in LoadedKeys(normalize, digest, file) || k == key
        {
          if k in LoadedKeys(normalize, digest, file') {
            var i :| 1 <= i < |file'| && |file'[i]| == 6 && MatchKey(normalize, digest, LineRecord(file'[i])) == k;
            if i < |file| {
              assert file'[i] == file[i];
            }
          }
          if k in LoadedKeys(normalize, digest, file) {
            var i :| 1 <= i < |file| && |file[i]| == 6 && MatchKey(normalize, digest, LineRecord(file[i])) == k;
            assert file'[i] == file[i];
          }
          if k == key {
            assert file'[|file|] == Cells(normalize, row);
          }
        }
      }
    }
  }

  /* ---------------------------------------------------------- upcoming */

  /** A line `getUpcomingMatches` keeps: six cells and a start time that
      parses and lies strictly between now and one day later. */
  predicate Upcoming(line: seq<string>, now: int, parse: string -> Option<int>) {
    |line| == 6 && parse(line[0]).Some? && now < parse(line[0]).value < now + Day
  }

  function LineRecords(lines: seq<seq<string>>): (r: seq<MatchInfo>)
    requires forall i :: 0 <= i < |lines| ==> |lines[i]| == 6
    ensures |r| == |lines|
  {
    seq(|lines|, i requires 0 <= i < |lines| => LineRecord(lines[i]))
  }

  /** The upcoming lines of `body`, in order; a line whose date does not
      parse is skipped. */
  function UpcomingIn(body: seq<seq<string>>, now: int, parse: string -> Option<int>): (r: seq<seq<string>>)
    ensures forall i :: 0 <= i < |r| ==> |r[i]| == 6
    ensures forall line :: line in r <==> line in body && Upcoming(line, now, parse)
  {
    var r := Filter(body, (line: seq<string>) => Upcoming(line, now, parse));
    assert forall i :: 0 <= i < |r| ==> r[i] in r;
    r
  }

  /** The upcoming lines after the header, in file order. */
  function UpcomingLines(lines: seq<seq<string>>, now: int, parse: string -> Option<int>): seq<seq<string>> {
    UpcomingIn(Body(lines), now, parse)
  }

  /* ------------------------------------------------------------- the store */

  class CsvStore {
    /** The file: the header line, then one line per stored match. */
    var lines: seq<seq<string>>
    /** `existingMatchesHashes`. */
    var hashes: set<string>
    const normalize: string -> string
    const digest: string -> string

    /** `existingMatchesHashes` holds exactly the keys of the file's match
        lines, so `matchExists` answers for the file. */
    ghost predicate Valid()
      reads this
    {
      Idempotent(normalize) && lines != [] && hashes == LoadedKeys(normalize, digest, lines)
    }

    /** The `init` block: a missing file is created with the header line; an
        existing one is read and its keys loaded. */
    constructor (file: Option<seq<seq<string>>>, normalize: string -> string, digest: string -> string)
      ensures this.normalize == normalize && this.digest == digest
      ensures Idempotent(normalize) && (file.None? || file.value != []) ==> Valid()
      ensures file.None? ==> lines == [Header] && hashes == {}
      ensures file.Some? ==> lines == file.value && hashes == LoadedKeys(normalize, digest, file.value)
    {
      this.normalize := normalize;
      this.digest := digest;
      lines := if file.None? then [Header] else file.value;
      hashes := {};
      new;
      if file.Some? {
        LoadExistingMatchesHashes();
      }
    }

    method LoadExistingMatchesHashes()
      modifies this
      ensures lines == old(lines)
      ensures hashes == old(hashes) + LoadedKeys(normalize, digest, lines)
    {
      var i := 1;
      while i < |lines|
        invariant 1 <= i <= |lines| || (lines == [] && i == 1)
        invariant lines == old(lines)
        invariant hashes == old(hashes) + LoadedBefore(normalize, digest, lines, i)
      {
        if |lines[i]| == 6 {
          hashes := hashes + {MatchKey(normalize, digest, LineRecord(lines[i]))};
        }
        i := i + 1;
      }
      LoadedBeforeAll(normalize, digest, lines, i);
    }

    method AppendRows(rows: seq<MatchInfo>)
      modifies this
      ensures hashes == AppendRun(normalize, digest, old(hashes), rows).keys
      ensures lines == old(lines) + AppendRun(normalize, digest, old(hashes), rows).written
      ensures old(Valid()) ==> Valid()
    {
      var i := 0;
      while i < |rows|
        invariant 0 <= i <= |rows|
        invariant hashes == AppendRun(normalize, digest, old(hashes), rows[..i]).keys
        invariant lines == old(lines) + AppendRun(normalize, digest, old(hashes), rows[..i]).written
      {
        assert rows[..i + 1][..i] == rows[..i];
        var row := rows[i];
        var key := MatchKey(normalize, digest, row);
        if key !in hashes {
          lines := lines + [Cells(normalize, row)];
          hashes := hashes + {key};
        }
        i := i + 1;
      }
      assert rows[..i] == rows;
      if old(Valid()) {
        AppendKeepsKeysInAgreement(normalize, digest, old(lines), rows);
      }
    }

    predicate MatchExists(m: MatchInfo)
      reads this
    {
      MatchKey(normalize, digest, m) in hashes
    }

    method GetUpcomingMatches(now: int, parse: string -> Option<int>) returns (matches: seq<MatchInfo>)
      ensures matches == LineRecords(UpcomingLines(lines, now, parse))
    {
      var body := Body(lines);
      matches := [];
      var i := 0;
      while i < |body|
        invariant 0 <= i <= |body|
        invariant matches == LineRecords(UpcomingIn(body[..i], now, parse))
      {
        assert body[..i + 1][..i] == body[..i];
        var line := body[i];
        if |line| == 6 {
          match parse(line[0])
          case None =>
          case Some(time) =>
            if now < time && time < now + Day {
              matches := matches + [LineRecord(line)];
            }
        }
        i := i + 1;
      }
      assert body[..i] == body;
    }
  }

  /** After `appendRows`, `matchExists` holds for every appended row. */
  lemma AppendedRowsExist(normalize: string -> string, digest: string -> string, keys: set<string>, rows: seq<MatchInfo>)
    ensures forall m :: m in rows ==> MatchKey(normalize, digest, m) in AppendRun(normalize, digest, keys, rows).keys
    ensures keys <= AppendRun(normalize, digest, keys, rows).keys
  {
    AppendKeys(normalize, digest, keys, rows);
    forall m | m in rows
      ensures MatchKey(normalize, digest, m) in KeysOf(normalize, digest, rows)
    {
      var i :| 0 <= i < |rows| && rows[i] == m;
    }
  }
}
