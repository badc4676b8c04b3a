/** What the editor makes of any header and any key line (internal/codexconfig/merge.go:213-301; TOML v1.0.0, "Keys"). */
module TomlPaths {
  import opened Text
  import opened Toml

  // ---------------------------------------------------------------- trimming

  predicate Spaces(s: string) { forall i :: 0 <= i < |s| ==> IsSpace(s[i]) }

  lemma {:induction false} LeadPasses(s: string, i: nat, k: nat)
    requires i <= k <= |s| && Spaces(s[i..k]) && (k < |s| ==> !IsSpace(s[k]))
    ensures Lead(s, i) == k
    decreases k - i
  {
    if i < k {
      assert s[i] == s[i..k][0];
      assert s[i + 1..k] == s[i..k][1..];
      LeadPasses(s, i + 1, k);
    }
  }

  lemma {:induction false} TrailPasses(s: string, low: nat, k: nat, i: nat)
    requires low < k <= i <= |s| && Spaces(s[k..i]) && !IsSpace(s[k - 1])
    ensures Trail(s, low, i) == k
    decreases i
  {
    if k < i {
      assert s[i - 1] == s[k..i][i - 1 - k];
      assert s[k..i - 1] == s[k..i][..i - 1 - k];
      TrailPasses(s, low, k, i - 1);
    }
  }

  /** Trimming takes off the spaces around a text and nothing else. */
  lemma TrimPadded(before: string, text: string, after: string)
    requires Spaces(before) && Spaces(after) && text != "" && Trimmed(text)
    ensures TrimSpace(before + text + after) == text
  {
    var s, a, b := before + text + after, |before|, |before| + |text|;
    assert s[0..a] == before && s[a] == text[0] && s[b - 1] == text[|text| - 1] && s[b..|s|] == after && s[a..b] == text;
    LeadPasses(s, 0, a);
    TrailPasses(s, a, b, |s|);
  }

  // ---------------------------------------------------------------- dotted paths

  /** A segment of a path: bare, a basic string, or a literal string. */
  datatype Segment = Bare(name: string) | Basic(name: string) | Literal(name: string)

  predicate Writable(s: Segment) {
    match s case Bare(n) => IsBareKey(n) case Basic(_) => true case Literal(n) => Omits(n, '\'')
  }

  predicate AllWritable(segments: seq<Segment>) { forall i :: 0 <= i < |segments| ==> Writable(segments[i]) }

  function Written(s: Segment): string {
    match s case Bare(n) => n case Basic(n) => TomlString(n) case Literal(n) => "'" + n + "'"
  }

  /** What the scanner makes of it: the name, a basic string less its escapes' backslashes. */
  function Reading(s: Segment): string {
    match s case Bare(n) => n case Basic(n) => KeptAll(n) case Literal(n) => n
  }

  function Dotted(segments: seq<Segment>): string
    requires |segments| > 0
  {
    var n := |segments| - 1;
    if n == 0 then Written(segments[0]) else Dotted(segments[..n]) + "." + Written(segments[n])
  }

  function Readings(segments: seq<Segment>): (r: seq<string>)
    ensures |r| == |segments|
  {
    seq(|segments|, i requires 0 <= i < |segments| => Reading(segments[i]))
  }

  function InLiteral(segments: seq<string>, current: string): Scan { Scan(segments, current, Some('\''), false, true) }

  lemma {:induction false} ScanRaw(segments: seq<string>, current: string, text: string)
    requires Omits(text, '\'')
    ensures ScanAll(text, InLiteral(segments, current)) == Some(InLiteral(segments, current + text))
    decreases |text|
  {
    if text == "" {
      assert current + text == current;
    } else {
      assert ScanRune(InLiteral(segments, current), text[0]) == Some(InLiteral(segments, current + [text[0]]));
      ScanRaw(segments, current + [text[0]], text[1..]);
      assert current + [text[0]] + text[1..] == current + text;
    }
  }

  /** The scan after a segment and before the dot or the end. */
  function Ended(segments: seq<string>, s: Segment): Scan {
    Scan(segments, Reading(s), None, false, !s.Bare?)
  }

  lemma ScanLiteral(segments: seq<string>, name: string)
    requires Omits(name, '\'')
    ensures ScanAll("'" + name + "'", Open(segments, "")) == Some(Ended(segments, Literal(name)))
  {
    ScanConcat("'", name + "'", Open(segments, ""));
    assert "'" + (name + "'") == "'" + name + "'";
    ScanOne('\'', Open(segments, ""));
    ScanConcat(name, "'", InLiteral(segments, ""));
    ScanRaw(segments, "", name);
    assert "" + name == name;
    ScanOne('\'', InLiteral(segments, name));
  }

  lemma ScanSegment(segments: seq<string>, s: Segment)
    requires Writable(s)
    ensures ScanAll(Written(s), Open(segments, "")) == Some(Ended(segments, s))
    ensures Flush(Ended(segments, s)) == Some(Open(segments + [Reading(s)], ""))
  {
    match s
    case Bare(n) =>
      ScanBareKey(segments, n);
      FlushBare(segments, n);
    case Basic(n) => ScanQuotedKey(segments, n);
    case Literal(n) => ScanLiteral(segments, n);
  }

  /** A path scanned up to its last segment. */
  lemma {:induction false} ScanDotted(segments: seq<Segment>)
    requires |segments| > 0 && AllWritable(segments)
    ensures var n := |segments| - 1;
            ScanAll(Dotted(segments), FIRST) == Some(Ended(Readings(segments[..n]), segments[n]))
    decreases |segments|
  {
    var n := |segments| - 1;
    if n == 0 {
      ScanSegment([], segments[0]);
      assert Readings(segments[..0]) == [];
    } else {
      var init := segments[..n];
      ScanDotted(init);
      var before := Readings(init[..n - 1]);
      ScanSegment(before, init[n - 1]);
      assert before + [Reading(init[n - 1])] == Readings(init);
      ScanConcat(Dotted(init), ".", FIRST);
      ScanOne('.', Ended(before, init[n - 1]));
      ScanConcat(Dotted(init) + ".", Written(segments[n]), FIRST);
      ScanSegment(Readings(init), segments[n]);
    }
  }

  /** Between segments: outside any quote, with something to flush. */
  ghost predicate Flushes(s: Scan, names: seq<string>) {
    s.quote.None? && !s.escaped && Flush(s) == Some(Open(names, ""))
  }

  lemma DottedEnds(segments: seq<Segment>) returns (s: Scan)
    requires |segments| > 0 && AllWritable(segments)
    ensures ScanAll(Dotted(segments), FIRST) == Some(s) && Flushes(s, Readings(segments))
  {
    var n := |segments| - 1;
    ScanDotted(segments);
    ScanSegment(Readings(segments[..n]), segments[n]);
    assert Readings(segments[..n]) + [Reading(segments[n])] == Readings(segments);
    s := Ended(Readings(segments[..n]), segments[n]);
  }

  lemma FinishFlushes(s: Scan, names: seq<string>)
    requires Flushes(s, names)
    ensures Finish(s) == Some(names)
  {
  }

  /** Any dotted path of bare, basic and literal segments is split into its names. */
  lemma PathParses(segments: seq<Segment>)
    requires |segments| > 0 && AllWritable(segments)
    ensures SplitKeyPath(Dotted(segments)) == Some(Readings(segments))
  {
    var s := DottedEnds(segments);
    FinishFlushes(s, Readings(segments));
  }

  lemma AfterDot(text: string, s: Scan, names: seq<string>)
    requires ScanAll(text, FIRST) == Some(s) && Flushes(s, names)
    ensures ScanAll(text + ".", FIRST) == Some(Open(names, ""))
  {
    ScanConcat(text, ".", FIRST);
    ScanOne('.', s);
  }

  lemma NothingToFlush(names: seq<string>)
    ensures Finish(Open(names, "")) == None
  {
    assert TrimSpace("") == "";
  }

  lemma OpenLiteral(names: seq<string>, open: string)
    requires Omits(open, '\'')
    ensures ScanAll("'" + open, Open(names, "")) == Some(InLiteral(names, open))
  {
    ScanConcat("'", open, Open(names, ""));
    ScanOne('\'', Open(names, ""));
    ScanRaw(names, "", open);
    assert "" + open == open;
  }

  /** A path that ends in a dot, or in a string that is not closed, is refused rather than guessed at. */
  lemma MalformedIsRefused(segments: seq<Segment>, open: string)
    requires |segments| > 0 && AllWritable(segments) && Omits(open, '\'')
    ensures SplitKeyPath(Dotted(segments) + ".") == None
    ensures SplitKeyPath(Dotted(segments) + "." + ("'" + open)) == None
  {
    var s := DottedEnds(segments);
    AfterDot(Dotted(segments), s, Readings(segments));
    NothingToFlush(Readings(segments));
    ScanConcat(Dotted(segments) + ".", "'" + open, FIRST);
    OpenLiteral(Readings(segments), open);
  }

  // ---------------------------------------------------------------- header lines

  lemma BracketedPath(path: string, comment: string)
    requires path != "" && path[0] != '[' && Omits(comment, ']') && Trimmed("]" + comment)
    ensures var line := "[" + path + "]" + comment;
            line != "" && Trimmed(line) && LastIndex(line, ']') == |path| + 1 && line[1..|path| + 1] == path
            && HasPrefix(line, "[") && !HasPrefix(line, "[[")
  {
    var line := "[" + path + "]" + comment;
    assert line[0] == '[' && line[1] == path[0];
    assert line[|line| - 1] == ("]" + comment)[|comment|];
    LastBracket("[" + path, comment);
    assert !HasPrefix(line, "[[") by { assert "[["[1] == '['; }
  }

  /** A header, indented or followed by a comment that holds no bracket, is read as its path. */
  lemma HeaderIsRead(before: string, segments: seq<Segment>, comment: string)
    requires |segments| > 0 && AllWritable(segments) && Spaces(before) && Omits(comment, ']') && Trimmed("]" + comment)
    ensures ParseTableHeader(before + ("[" + Dotted(segments) + "]" + comment)) == Some(Readings(segments))
  {
    var path := Dotted(segments);
    var line := "[" + path + "]" + comment;
    DottedStarts(segments);
    BracketedPath(path, comment);
    TrimPadded(before, line, "");
    assert before + line + "" == before + line;
    PathParses(segments);
  }

  lemma {:induction false} LastBracket(text: string, comment: string)
    requires Omits(comment, ']')
    ensures LastIndex(text + "]" + comment, ']') == |text|
    decreases |comment|
  {
    var s := text + "]" + comment;
    if comment != "" {
      var n := |comment| - 1;
      assert s[..|s| - 1] == text + "]" + comment[..n] && s[|s| - 1] == comment[n];
      LastBracket(text, comment[..n]);
    }
  }

  lemma {:induction false} DottedStarts(segments: seq<Segment>)
    requires |segments| > 0 && AllWritable(segments)
    ensures Dotted(segments) != "" && Dotted(segments)[0] != '[' && !IsSpace(Dotted(segments)[0])
    ensures Dotted(segments)[0] != '#'
    decreases |segments|
  {
    if |segments| > 1 {
      DottedStarts(segments[..|segments| - 1]);
      assert Dotted(segments)[0] == Dotted(segments[..|segments| - 1])[0];
    } else {
      assert Writable(segments[0]);
    }
  }

  /** An array of tables, and a line that does not open a bracket, are no headers. */
  lemma OthersAreNoHeaders(line: string)
    requires HasPrefix(TrimSpace(line), "[[") || !HasPrefix(TrimSpace(line), "[")
    ensures ParseTableHeader(line) == None
  {
  }

  // ---------------------------------------------------------------- key lines

  lemma KeyLineShape(text: string, value: string)
    requires text != "" && !IsSpace(text[0]) && text[0] != '#' && Omits(text, '=') && Trimmed("=" + value)
    ensures var line := text + "=" + value;
            line != "" && Trimmed(line) && Index(line, '=') == |text| && line[..|text|] == text && !HasPrefix(line, "#")
  {
    var line := text + "=" + value;
    assert line[0] == text[0] && line[|line| - 1] == ("=" + value)[|value|];
    FirstEquals(text, value);
  }

  /**
   What a key line is taken to assign to: the first segment of its path. A quoted key keeps
   the spaces between it and the equals sign, so it is read right exactly when it is bare or
   followed by none.
   */
  lemma KeyNameIsExact(before: string, key: Segment, gap: string, value: string)
    requires Writable(key) && Spaces(before) && Spaces(gap) && Omits(Written(key), '=') && Omits(gap, '=') && Trimmed("=" + value)
    ensures ParseKeyName(before + (Written(key) + gap + "=" + value)) == Some(if key.Bare? then key.name else Reading(key) + gap)
  {
    var text := Written(key) + gap;
    DottedStarts([key]);
    assert Dotted([key]) == Written(key) && text[0] == Written(key)[0];
    KeyLineShape(text, value);
    TrimPadded(before, text + "=" + value, "");
    assert before + (text + "=" + value) + "" == before + (text + "=" + value);
    PaddedKey(key, gap);
  }

  lemma {:induction false} FirstEquals(text: string, value: string)
    requires Omits(text, '=')
    ensures Index(text + "=" + value, '=') == |text|
    decreases |text|
  {
    var s := text + "=" + value;
    if text != "" {
      assert s[1..] == text[1..] + "=" + value && s[0] == text[0];
      FirstEquals(text[1..], value);
    }
  }

  lemma {:induction false} ScanSpaces(s: Scan, gap: string)
    requires Spaces(gap) && s.quote.None? && !s.escaped
    ensures ScanAll(gap, s) == Some(s.(current := s.current + gap))
    decreases |gap|
  {
    if gap == "" {
      assert s.current + gap == s.current;
    } else {
      var next := s.(current := s.current + [gap[0]]);
      assert ScanRune(s, gap[0]) == Some(next);
      ScanSpaces(next, gap[1..]);
      assert s.current + [gap[0]] + gap[1..] == s.current + gap;
    }
  }

  lemma BarePadded(name: string, gap: string)
    requires IsBareKey(name) && Spaces(gap)
    ensures TrimSpace(name + gap) == name
  {
    BareIsTrimmed(name);
    TrimmedIsFixed(name);
    TrimPadded("", name, gap);
    assert "" + name + gap == name + gap;
  }

  lemma PaddedName(key: Segment, gap: string)
    requires Writable(key) && Spaces(gap)
    ensures Finish(Ended([], key).(current := Reading(key) + gap)) == Some([if key.Bare? then key.name else Reading(key) + gap])
  {
    if key.Bare? { BarePadded(key.name, gap); }
    assert [] + [if key.Bare? then key.name else Reading(key) + gap] == [if key.Bare? then key.name else Reading(key) + gap];
  }

  lemma PaddedKey(key: Segment, gap: string)
    requires Writable(key) && Spaces(gap)
    ensures SplitKeyPath(Written(key) + gap) == Some([if key.Bare? then key.name else Reading(key) + gap])
  {
    ScanSegment([], key);
    ScanConcat(Written(key), gap, FIRST);
    ScanSpaces(Ended([], key), gap);
    PaddedName(key, gap);
  }

  /** A blank line, a comment and a line without an equals sign assign to nothing. */
  lemma OthersAreNoKeys(line: string)
    requires var t := TrimSpace(line); t == "" || HasPrefix(t, "#") || Omits(t, '=')
    ensures ParseKeyName(line) == None
  {
  }
}
