/**
 Lines of a shared configuration document (internal/codexconfig/merge.go:303-345).

 Reading folds CRLF into LF, so a document is compared line by line, not byte by byte.
 */
module CodexLines {
  import opened Text

  /** strings.ReplaceAll(s, "\r\n", "\n"). */
  function Normalize(s: string): string {
    if s == "" then ""
    else if |s| >= 2 && s[0] == '\r' && s[1] == '\n' then "\n" + Normalize(s[2..])
    else [s[0]] + Normalize(s[1..])
  }

  function SplitLines(s: string): seq<string> {
    if s == "" then [] else SplitOn(TrimSuffix(Normalize(s), '\n'), '\n')
  }

  function JoinLines(lines: seq<string>): string {
    if |lines| == 0 then "" else JoinOn(lines, '\n') + "\n"
  }

  predicate IsBlank(line: string) { TrimSpace(line) == "" }

  function TrimTrailingBlanks(lines: seq<string>): (r: seq<string>)
    ensures r <= lines
    ensures r != [] ==> !IsBlank(r[|r| - 1])
    ensures forall i :: |r| <= i < |lines| ==> IsBlank(lines[i])
  {
    if lines != [] && IsBlank(lines[|lines| - 1]) then TrimTrailingBlanks(lines[..|lines| - 1]) else lines
  }

  function ReplaceLines(lines: seq<string>, first: nat, last: int, block: seq<string>): seq<string>
    requires first <= |lines| && -1 <= last < |lines|
  {
    lines[..first] + block + (if last + 1 < |lines| then lines[last + 1..] else [])
  }

  function AppendBlock(lines: seq<string>, block: seq<string>): seq<string> {
    var kept := TrimTrailingBlanks(lines);
    (if kept != [] then kept + [""] else kept) + block
  }

  /** Replacing a block between two stretches of lines. */
  lemma Splice(before: seq<string>, block: seq<string>, after: seq<string>, other: seq<string>)
    requires |block| > 0
    ensures ReplaceLines(before + block + after, |before|, |before| + |block| - 1, other) == before + other + after
  {
    var lines := before + block + after;
    assert lines[..|before|] == before && lines[|before| + |block|..] == after;
  }

  predicate SolidEnd(r: seq<string>) { r != [] ==> !IsBlank(r[|r| - 1]) }

  predicate BlankFrom(lines: seq<string>, k: nat) { forall i :: k <= i < |lines| ==> IsBlank(lines[i]) }

  lemma SolidBound(lines: seq<string>, r: seq<string>, k: nat)
    requires r <= lines && SolidEnd(r) && BlankFrom(lines, k)
    ensures |r| <= k
  {
    if r != [] {
      assert lines[|r| - 1] == r[|r| - 1];
    }
  }

  /** Trimming is determined by its result: a prefix with a solid end and a blank remainder. */
  lemma TrimIsUnique(lines: seq<string>, r: seq<string>)
    requires r <= lines && SolidEnd(r) && BlankFrom(lines, |r|)
    ensures TrimTrailingBlanks(lines) == r
  {
    var t := TrimTrailingBlanks(lines);
    SolidBound(lines, r, |t|);
    SolidBound(lines, t, |r|);
  }

  // ---------------------------------------------------------------- join then split

  /** A line that reading leaves alone: no newline in it and no carriage return to fold. */
  predicate Clean(line: string) {
    Omits(line, '\n') && (line != "" ==> line[|line| - 1] != '\r')
  }

  predicate AllClean(lines: seq<string>) { forall i :: 0 <= i < |lines| ==> Clean(lines[i]) }

  lemma {:induction false} NormalizeLine(line: string, rest: string)
    requires Clean(line)
    ensures Normalize(line + "\n" + rest) == line + "\n" + Normalize(rest)
    decreases |line|
  {
    var s := line + "\n" + rest;
    if line == "" {
      assert s == "\n" + rest && s[1..] == rest;
    } else {
      var t := line[1..] + "\n" + rest;
      assert s[0] == line[0] && s[1..] == t;
      assert |line| >= 2 ==> s[1] == line[1];
      NormalizeLine(line[1..], rest);
      assert Normalize(s) == [line[0]] + Normalize(t);
      assert [line[0]] + (line[1..] + "\n" + Normalize(rest)) == line + "\n" + Normalize(rest);
    }
  }

  lemma {:induction false} NormalizeJoin(lines: seq<string>)
    requires lines != [] && AllClean(lines)
    ensures Normalize(JoinOn(lines, '\n') + "\n") == JoinOn(lines, '\n') + "\n"
    decreases |lines|
  {
    assert Clean(lines[0]);
    if |lines| == 1 {
      NormalizeLine(lines[0], "");
      assert lines[0] + "\n" + "" == lines[0] + "\n";
    } else {
      assert forall i :: 0 <= i < |lines[1..]| ==> lines[1..][i] == lines[i + 1];
      NormalizeJoin(lines[1..]);
      var rest := JoinOn(lines[1..], '\n') + "\n";
      NormalizeLine(lines[0], rest);
      assert lines[0] + "\n" + rest == JoinOn(lines, '\n') + "\n";
    }
  }

  /** What is written is what is read back, for lines without stray carriage returns. */
  lemma ReadBack(lines: seq<string>)
    requires AllClean(lines)
    ensures SplitLines(JoinLines(lines)) == lines
  {
    if lines != [] {
      var s := JoinOn(lines, '\n') + "\n";
      NormalizeJoin(lines);
      assert TrimSuffix(s, '\n') == JoinOn(lines, '\n');
      SplitJoin(lines, '\n');
    }
  }

  // ---------------------------------------------------------------- documents with CRLF

  function CrlfLines(lines: seq<string>): string {
    if |lines| == 0 then "" else lines[0] + "\r\n" + CrlfLines(lines[1..])
  }

  lemma {:induction false} NormalizeCrlf(line: string, rest: string)
    requires Clean(line)
    ensures Normalize(line + "\r\n" + rest) == line + "\n" + Normalize(rest)
    decreases |line|
  {
    var s := line + "\r\n" + rest;
    if line == "" {
      assert s[0] == '\r' && s[1] == '\n' && s[2..] == rest;
      assert "" + "\n" + Normalize(rest) == "\n" + Normalize(rest);
    } else {
      var t := line[1..] + "\r\n" + rest;
      assert s[0] == line[0] && s[1..] == t;
      assert |line| >= 2 ==> s[1] == line[1];
      NormalizeCrlf(line[1..], rest);
      assert [line[0]] + (line[1..] + "\n" + Normalize(rest)) == line + "\n" + Normalize(rest);
    }
  }

  lemma {:induction false} CrlfIsNormalized(lines: seq<string>)
    requires AllClean(lines)
    ensures Normalize(CrlfLines(lines)) == JoinLines(lines)
    decreases |lines|
  {
    if |lines| > 0 {
      var rest := lines[1..];
      assert forall i :: 0 <= i < |rest| ==> rest[i] == lines[i + 1];
      CrlfIsNormalized(rest);
      NormalizeCrlf(lines[0], CrlfLines(rest));
      if |lines| == 1 {
        assert lines[0] + "\n" + "" == lines[0] + "\n";
      } else {
        assert lines[0] + "\n" + (JoinOn(rest, '\n') + "\n") == JoinOn(lines, '\n') + "\n";
      }
    }
  }

  /** A document with CRLF line ends is read as the same lines as one with LF. */
  lemma CrlfReadsTheSame(lines: seq<string>)
    requires AllClean(lines)
    ensures SplitLines(CrlfLines(lines)) == lines
  {
    if lines != [] {
      CrlfIsNormalized(lines);
      assert TrimSuffix(JoinLines(lines), '\n') == JoinOn(lines, '\n');
      SplitJoin(lines, '\n');
      assert |CrlfLines(lines)| > 0;
    }
  }
}
