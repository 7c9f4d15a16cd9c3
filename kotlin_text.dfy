/** The pieces of Kotlin's standard text functions the services rely on:
    `lines()`, `joinToString` and `trimIndent()`, with the facts needed to
    read a raw string literal and a joined text back line by line. */
module KotlinText {
  import opened Common

  predicate IsBreak(c: char) {
    c == '\n' || c == '\r'
  }

  predicate NoLineBreak(s: string) {
    forall i :: 0 <= i < |s| ==> !IsBreak(s[i])
  }

  lemma ConcatNoLineBreak(a: string, b: string)
    requires NoLineBreak(a) && NoLineBreak(b)
    ensures NoLineBreak(a + b)
  {
    forall i | 0 <= i < |a + b|
      ensures !IsBreak((a + b)[i])
    {
      if i >= |a| {
        assert (a + b)[i] == b[i - |a|];
      }
    }
  }

  /** Kotlin's `isBlank()`. */
  predicate IsBlank(s: string) {
    forall i :: 0 <= i < |s| ==> IsWhitespace(s[i])
  }

  /** Position of the first line break, or |s|. */
  function LineEnd(s: string): (k: nat)
    ensures k <= |s|
    ensures forall i :: 0 <= i < k ==> !IsBreak(s[i])
    ensures k < |s| ==> IsBreak(s[k])
    decreases |s|
  {
    if s == [] || IsBreak(s[0]) then 0 else 1 + LineEnd(s[1..])
  }

  /** Kotlin's `lines()`: splits at "\r\n", "\n" and "\r"; a trailing break
      leaves an empty last line. */
  function Lines(s: string): (ls: seq<string>)
    ensures |ls| >= 1
    decreases |s|
  {
    var k := LineEnd(s);
    if k == |s| then [s]
    else
      var next := if s[k] == '\r' && k + 1 < |s| && s[k + 1] == '\n' then k + 2 else k + 1;
      [s[..k]] + Lines(s[next..])
  }

  /** Number of leading whitespace characters. */
  function IndentWidth(s: string): (w: nat)
    ensures w <= |s|
    decreases |s|
  {
    if s != [] && IsWhitespace(s[0]) then 1 + IndentWidth(s[1..]) else 0
  }

  /** The smallest indent of a non-blank line, if there is one. */
  function MinIndent(ls: seq<string>): Option<nat>
    decreases |ls|
  {
    if ls == [] then None
    else
      var rest := MinIndent(ls[1..]);
      if IsBlank(ls[0]) then rest
      else if rest.Some? && rest.value < IndentWidth(ls[0]) then rest
      else Some(IndentWidth(ls[0]))
  }

  /** Kotlin's `drop(n)`. */
  function Drop(s: string, n: nat): string {
    if n >= |s| then [] else s[n..]
  }

  /** A blank first or last line is removed; every other line loses `n` characters. */
  function Reindent(ls: seq<string>, n: nat): seq<string>
    requires |ls| >= 1
  {
    var first := if IsBlank(ls[0]) then 1 else 0;
    var last := if |ls| > 1 && IsBlank(ls[|ls| - 1]) then |ls| - 1 else |ls|;
    seq(last - first, i requires 0 <= i < last - first => Drop(ls[first + i], n))
  }

  function Join(ls: seq<string>, sep: string): string
    decreases |ls|
  {
    if ls == [] then [] else if |ls| == 1 then ls[0] else ls[0] + sep + Join(ls[1..], sep)
  }

  /** Kotlin's `trimIndent()`. */
  function TrimIndent(s: string): string {
    var ls := Lines(s);
    Join(Reindent(ls, MinIndent(ls).GetOr(0)), "\n")
  }

  /** A raw string literal's body: each line on its own line behind `pad`. */
  function Indented(ls: seq<string>, pad: string): string
    decreases |ls|
  {
    if ls == [] then [] else pad + ls[0] + "\n" + Indented(ls[1..], pad)
  }

  lemma LinesCons(p: string, rest: string)
    requires NoLineBreak(p)
    ensures Lines(p + "\n" + rest) == [p] + Lines(rest)
  {
    var s := p + "\n" + rest;
    assert s[|p|] == '\n';
    assert forall i :: 0 <= i < |p| ==> s[i] == p[i];
    assert LineEnd(s) == |p|;
    assert s[..|p|] == p;
    assert s[|p| + 1..] == rest;
  }

  lemma LinesOfLine(p: string)
    requires NoLineBreak(p)
    ensures Lines(p) == [p]
  {
  }

  /** The lines behind a padding, in order. */
  function Padded(ls: seq<string>, pad: string): (r: seq<string>)
    ensures |r| == |ls|
    ensures forall i :: 0 <= i < |ls| ==> r[i] == pad + ls[i]
  {
    seq(|ls|, i requires 0 <= i < |ls| => pad + ls[i])
  }

  lemma {:induction false} LinesIndented(ls: seq<string>, pad: string, tail: string)
    requires NoLineBreak(pad) && NoLineBreak(tail)
    requires forall i :: 0 <= i < |ls| ==> NoLineBreak(ls[i])
    ensures Lines(Indented(ls, pad) + tail) == Padded(ls, pad) + [tail]
    decreases |ls|
  {
    if ls == [] {
      assert Indented(ls, pad) + tail == tail;
      LinesOfLine(tail);
    } else {
      LinesIndentedCons(ls, pad, tail);
      LinesIndented(ls[1..], pad, tail);
      PaddedCons(ls, pad);
      assert [pad + ls[0]] + (Padded(ls[1..], pad) + [tail]) == ([pad + ls[0]] + Padded(ls[1..], pad)) + [tail];
    }
  }

  /** The first indented line is read off before the rest. */
  lemma LinesIndentedCons(ls: seq<string>, pad: string, tail: string)
    requires ls != [] && NoLineBreak(pad)
    requires forall i :: 0 <= i < |ls| ==> NoLineBreak(ls[i])
    ensures Lines(Indented(ls, pad) + tail) == [pad + ls[0]] + Lines(Indented(ls[1..], pad) + tail)
    ensures forall i :: 0 <= i < |ls[1..]| ==> NoLineBreak(ls[1..][i])
  {
    ConcatNoLineBreak(pad, ls[0]);
    IndentedCons(ls, pad, tail);
    LinesCons(pad + ls[0], Indented(ls[1..], pad) + tail);
    forall i | 0 <= i < |ls[1..]| ensures NoLineBreak(ls[1..][i]) {
      assert ls[1..][i] == ls[i + 1];
    }
  }

  lemma IndentedCons(ls: seq<string>, pad: string, tail: string)
    requires ls != []
    ensures Indented(ls, pad) + tail == (pad + ls[0]) + "\n" + (Indented(ls[1..], pad) + tail)
  {
    var line := pad + ls[0];
    var rest := Indented(ls[1..], pad);
    assert Indented(ls, pad) == line + "\n" + rest;
    assert (line + "\n" + rest) + tail == line + "\n" + (rest + tail);
  }

  lemma PaddedCons(ls: seq<string>, pad: string)
    requires ls != []
    ensures Padded(ls, pad) == [pad + ls[0]] + Padded(ls[1..], pad)
  {
  }

  lemma {:induction false} IndentOfPadded(pad: string, line: string)
    requires IsBlank(pad) && line != [] && !IsWhitespace(line[0])
    ensures IndentWidth(pad + line) == |pad|
    ensures !IsBlank(pad + line)
    decreases |pad|
  {
    if pad == [] {
      assert (pad + line)[0] == line[0];
    } else {
      assert (pad + line)[1..] == pad[1..] + line;
      IndentOfPadded(pad[1..], line);
      assert (pad + line)[|pad|] == line[0];
    }
  }

  /** Each line starts with a visible character and has no line break. */
  predicate PlainLines(ls: seq<string>) {
    forall i :: 0 <= i < |ls| ==> ls[i] != [] && !IsWhitespace(ls[i][0]) && NoLineBreak(ls[i])
  }

  lemma {:induction false} MinIndentPadded(ls: seq<string>, pad: string, tail: string)
    requires IsBlank(pad) && IsBlank(tail) && ls != [] && PlainLines(ls)
    ensures MinIndent(Padded(ls, pad) + [tail]) == Some(|pad|)
    decreases |ls|
  {
    var all := Padded(ls, pad) + [tail];
    IndentOfPadded(pad, ls[0]);
    assert all[0] == pad + ls[0];
    if |ls| == 1 {
      assert all[1..] == [tail];
      assert MinIndent([tail][1..]) == None;
    } else {
      MinIndentPadded(ls[1..], pad, tail);
      assert all[1..] == Padded(ls[1..], pad) + [tail];
    }
  }

  lemma ReindentPadded(ls: seq<string>, pad: string, tail: string)
    requires IsBlank(tail) && ls != [] && PlainLines(ls) && IsBlank(pad)
    ensures Reindent([[]] + (Padded(ls, pad) + [tail]), |pad|) == ls
  {
    var lines := [[]] + (Padded(ls, pad) + [tail]);
    assert IsBlank(lines[0]);
    assert lines[|lines| - 1] == tail;
    var r := Reindent(lines, |pad|);
    assert |r| == |ls|;
    forall i | 0 <= i < |ls|
      ensures r[i] == ls[i]
    {
      assert r[i] == Drop(lines[1 + i], |pad|);
      assert lines[1 + i] == pad + ls[i];
      assert (pad + ls[i])[|pad|..] == ls[i];
    }
  }

  lemma LinesLeadingBreak(body: string)
    ensures Lines("\n" + body) == [[]] + Lines(body)
  {
    var s := "\n" + body;
    assert LineEnd(s) == 0;
    assert s[1..] == body;
  }

  lemma LinesLeadingBreakBefore(a: string, b: string)
    ensures Lines("\n" + a + b) == [[]] + Lines(a + b)
  {
    assert "\n" + a + b == "\n" + (a + b);
    LinesLeadingBreak(a + b);
  }

  lemma LinesOfLiteral(ls: seq<string>, pad: string, tail: string)
    requires NoLineBreak(pad) && NoLineBreak(tail) && PlainLines(ls)
    ensures Lines("\n" + Indented(ls, pad) + tail) == [[]] + (Padded(ls, pad) + [tail])
  {
    LinesLeadingBreakBefore(Indented(ls, pad), tail);
    LinesIndented(ls, pad, tail);
  }

  lemma MinIndentOfLiteral(ls: seq<string>, pad: string, tail: string)
    requires IsBlank(pad) && IsBlank(tail) && ls != [] && PlainLines(ls)
    ensures MinIndent([[]] + (Padded(ls, pad) + [tail])) == Some(|pad|)
  {
    var lines := [[]] + (Padded(ls, pad) + [tail]);
    MinIndentPadded(ls, pad, tail);
    assert lines[1..] == Padded(ls, pad) + [tail];
    assert IsBlank(lines[0]);
  }

  /** A raw string literal written the usual way — an opening line break,
      every line behind the same padding, the closing quotes behind blank
      padding — trims to its lines joined by "\n". */
  lemma TrimIndentOfLiteral(ls: seq<string>, pad: string, tail: string)
    requires IsBlank(pad) && IsBlank(tail) && NoLineBreak(pad) && NoLineBreak(tail)
    requires ls != [] && PlainLines(ls)
    ensures TrimIndent("\n" + Indented(ls, pad) + tail) == Join(ls, "\n")
  {
    LinesOfLiteral(ls, pad, tail);
    MinIndentOfLiteral(ls, pad, tail);
    ReindentPadded(ls, pad, tail);
  }

  lemma {:induction false} JoinAppend(a: seq<string>, b: seq<string>)
    requires a != [] && b != []
    ensures Join(a + b, "\n") == Join(a, "\n") + "\n" + Join(b, "\n")
    decreases |a|
  {
    if |a| == 1 {
      assert (a + b)[1..] == b;
    } else {
      JoinAppend(a[1..], b);
      assert (a + b)[1..] == a[1..] + b;
    }
  }

  /** Lines joined by "\n" split back into the same lines. */
  lemma {:induction false} LinesOfJoin(ls: seq<string>)
    requires ls != [] && forall i :: 0 <= i < |ls| ==> NoLineBreak(ls[i])
    ensures Lines(Join(ls, "\n")) == ls
    decreases |ls|
  {
    if |ls| == 1 {
      LinesOfLine(ls[0]);
    } else {
      LinesCons(ls[0], Join(ls[1..], "\n"));
      LinesOfJoin(ls[1..]);
    }
  }
}
