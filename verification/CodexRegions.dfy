/**
 What merging and removing one project's region does to a document
 (internal/codexconfig/merge.go:56-164, entry.go:75-140).

 A region is a block of whole lines:

   # lctk:begin <project>        found by comparing trimmed lines
   # Generated by LCTK. ...      two comments
   # The grant token ...
   [mcp_servers.<name>]          the header, then key lines
   url = "..."
   ...
   # lctk:end <project>

 The first part of this module looks at the block's own lines: none of them is a marker, none
 holds a control character, so none is changed by splitting and joining. The second looks at a
 sequence of trimmed lines, any texts at all, and asks where the first region between two
 given texts is found once a block has been put somewhere: at the block itself, when nothing
 before it opens a region, and otherwise from that opening to the block's end.
 */
module CodexRegions {
  import opened Text
  import opened Toml
  import opened CodexLines
  import opened CodexConfig

  // ---------------------------------------------------------------- the block's own lines

  lemma NoControlIsClean(line: string)
    requires NoControl(line)
    ensures Clean(line)
  {
  }

  lemma HexIsNoControl(c: char)
    requires IsControl(c)
    ensures NoControl(Escape(c))
  {
    if Escape(c) == "\\u" + Hex4(c) {
      HexIsPlain(c);
      forall i | 0 <= i < |Escape(c)| ensures !IsControl(Escape(c)[i]) {
        assert i >= 2 ==> Escape(c)[i] == Hex4(c)[i - 2];
      }
    }
  }

  lemma {:induction false} EscapedIsNoControl(s: string)
    ensures NoControl(EscapeAll(s))
  {
    if s != "" {
      EscapedIsNoControl(s[1..]);
      if IsControl(s[0]) { HexIsNoControl(s[0]); }
      ConcatNoControl(Escape(s[0]), EscapeAll(s[1..]));
    }
  }

  lemma ConcatNoControl(a: string, b: string)
    requires NoControl(a) && NoControl(b)
    ensures NoControl(a + b)
  {
  }

  lemma StringIsNoControl(s: string)
    ensures NoControl(TomlString(s))
  {
    EscapedIsNoControl(s);
  }

  lemma KeyIsNoControl(s: string)
    ensures NoControl(TomlKey(s))
  {
    StringIsNoControl(s);
  }

  /** A line with a solid, non-comment first character and nothing to normalise. */
  predicate Plain(line: string) {
    line != "" && !IsSpace(line[0]) && line[0] != '#' && NoControl(line)
  }

  lemma PlainLine(key: string, value: string)
    requires Plain(key) && NoControl(value)
    ensures Plain(key + value) && (key + value)[0] == key[0]
  {
  }

  lemma HeaderIsPlain(e: Entry)
    ensures Plain(HeaderLine(e.name))
  {
    KeyIsNoControl(e.name);
    ConcatNoControl("[mcp_servers.", TomlKey(e.name));
    ConcatNoControl("[mcp_servers." + TomlKey(e.name), "]");
    assert HeaderLine(e.name) == "[mcp_servers." + TomlKey(e.name) + "]";
  }

  predicate KeyLine(line: string) { Plain(line) && line[0] != '[' }

  predicate KeyLines(lines: seq<string>) { forall i :: 0 <= i < |lines| ==> KeyLine(lines[i]) }

  lemma OptionalIsKeyLines(key: string, value: Option<string>)
    requires KeyLine(key) && (value.Some? ==> NumberText(value.value))
    ensures KeyLines(Optional(key, value))
  {
    match value
    case None =>
    case Some(v) =>
      PlainLine(key, " = ");
      PlainLine(key + " = ", v);
  }

  lemma ConcatKeyLines(a: seq<string>, b: seq<string>)
    requires KeyLines(a) && KeyLines(b)
    ensures KeyLines(a + b)
  {
  }

  function Values(e: Entry): seq<string> {
    ["url = " + TomlString(e.url), "bearer_token_env_var = " + TomlString(e.tokenVar)]
  }

  function Enabled(e: Entry): seq<string> { ["enabled = " + (if e.enabled then "true" else "false")] }

  /** What follows the header. */
  function KeysOf(e: Entry): seq<string> {
    Values(e) + (Optional("startup_timeout_sec", e.startup) + (Optional("tool_timeout_sec", e.tool) + Enabled(e)))
  }

  lemma EntryIsHeaderAndKeys(e: Entry)
    ensures RenderEntry(e) == [HeaderLine(e.name)] + KeysOf(e)
  {
  }

  lemma ValuesAreKeyLines(e: Entry)
    ensures KeyLines(Values(e))
  {
    StringIsNoControl(e.url);
    StringIsNoControl(e.tokenVar);
    PlainLine("url = ", TomlString(e.url));
    PlainLine("bearer_token_env_var = ", TomlString(e.tokenVar));
  }

  lemma EnabledIsKeyLine(e: Entry)
    ensures KeyLines(Enabled(e))
  {
    PlainLine("enabled = ", "true");
    PlainLine("enabled = ", "false");
  }

  lemma TimeoutsAreKeyLines(e: Entry)
    requires PrintableTimeouts(e)
    ensures KeyLines(Optional("startup_timeout_sec", e.startup)) && KeyLines(Optional("tool_timeout_sec", e.tool))
  {
    OptionalIsKeyLines("startup_timeout_sec", e.startup);
    OptionalIsKeyLines("tool_timeout_sec", e.tool);
  }

  lemma KeysAreKeyLines(e: Entry)
    requires PrintableTimeouts(e)
    ensures KeyLines(KeysOf(e))
  {
    ValuesAreKeyLines(e);
    TimeoutsAreKeyLines(e);
    EnabledIsKeyLine(e);
    var tool, startup := Optional("tool_timeout_sec", e.tool), Optional("startup_timeout_sec", e.startup);
    ConcatKeyLines(tool, Enabled(e));
    ConcatKeyLines(startup, tool + Enabled(e));
    ConcatKeyLines(Values(e), startup + (tool + Enabled(e)));
  }

  lemma GeneratedHasNoControl()
    ensures NoControl(GENERATED)
  {
    ConcatNoControl("This region is rewritten; ", "edit it through lctk.");
    ConcatNoControl("# Generated by LCTK. ", "This region is rewritten; " + "edit it through lctk.");
  }

  lemma GeneratedIsFixed()
    ensures NoControl(GENERATED) && TrimSpace(GENERATED) == GENERATED
    ensures |GENERATED| > 2 && GENERATED[2] == 'G'
  {
    GeneratedHasNoControl();
    assert GENERATED[0] == '#' && GENERATED[|GENERATED| - 1] == '.';
    TrimmedIsFixed(GENERATED);
  }

  lemma TokenNoteHasNoControl()
    ensures NoControl(TOKEN_NOTE)
  {
    ConcatNoControl("and is never ", "stored here.");
    ConcatNoControl("environment variable ", "and is never " + "stored here.");
    ConcatNoControl("read from the named ", "environment variable " + ("and is never " + "stored here."));
    ConcatNoControl("# The grant token is ",
                    "read from the named " + ("environment variable " + ("and is never " + "stored here.")));
  }

  lemma TokenNoteIsFixed()
    ensures NoControl(TOKEN_NOTE) && TrimSpace(TOKEN_NOTE) == TOKEN_NOTE
    ensures |TOKEN_NOTE| > 2 && TOKEN_NOTE[2] == 'T'
  {
    TokenNoteHasNoControl();
    assert TOKEN_NOTE[0] == '#' && TOKEN_NOTE[|TOKEN_NOTE| - 1] == '.';
    TrimmedIsFixed(TOKEN_NOTE);
  }

  lemma MarkersAreFixed(id: string)
    requires ValidId(id)
    ensures NoControl(BeginMarker(id)) && TrimSpace(BeginMarker(id)) == BeginMarker(id)
    ensures NoControl(EndMarker(id)) && TrimSpace(EndMarker(id)) == EndMarker(id)
  {
    TrimmedIsFixed(BeginMarker(id));
    TrimmedIsFixed(EndMarker(id));
  }

  lemma TrimKeepsHead(line: string)
    requires line != "" && !IsSpace(line[0])
    ensures TrimSpace(line) != "" && TrimSpace(line)[0] == line[0]
  {
    assert Lead(line, 0) == 0;
    TrailKeepsSolid(line, |line|);
  }

  lemma {:induction false} TrailKeepsSolid(line: string, i: nat)
    requires 0 < i <= |line| && !IsSpace(line[0])
    ensures Trail(line, 0, i) > 0
    decreases i
  {
    if IsSpace(line[i - 1]) { TrailKeepsSolid(line, i - 1); }
  }

  /** A line that is no marker of the project. */
  predicate Quiet(line: string, id: string) {
    TrimSpace(line) != BeginMarker(id) && TrimSpace(line) != EndMarker(id)
  }

  lemma PlainIsQuiet(line: string, id: string)
    requires Plain(line)
    ensures Quiet(line, id)
  {
    TrimKeepsHead(line);
    assert BeginMarker(id)[0] == '#' && EndMarker(id)[0] == '#';
  }

  lemma CommentIsQuiet(line: string, id: string)
    requires |line| > 2 && line[2] != 'l' && TrimSpace(line) == line
    ensures Quiet(line, id)
  {
    assert BeginMarker(id)[2] == 'l' && EndMarker(id)[2] == 'l';
  }

  predicate AllQuiet(lines: seq<string>, id: string) { forall i :: 0 <= i < |lines| ==> Quiet(lines[i], id) }

  lemma InnerIsQuiet(e: Entry, id: string)
    requires PrintableTimeouts(e)
    ensures AllQuiet(Inner(e), id)
  {
    GeneratedIsFixed();
    TokenNoteIsFixed();
    CommentIsQuiet(GENERATED, id);
    CommentIsQuiet(TOKEN_NOTE, id);
    EntryIsHeaderAndKeys(e);
    HeaderIsPlain(e);
    PlainIsQuiet(HeaderLine(e.name), id);
    KeysAreKeyLines(e);
    var inner := [GENERATED, TOKEN_NOTE, HeaderLine(e.name)] + KeysOf(e);
    assert Inner(e) == inner;
    forall i | 0 <= i < |inner| ensures Quiet(inner[i], id) {
      if i >= 3 { PlainIsQuiet(KeysOf(e)[i - 3], id); }
    }
  }

  lemma ConcatClean(a: seq<string>, b: seq<string>)
    requires AllClean(a) && AllClean(b)
    ensures AllClean(a + b)
  {
  }

  lemma KeyLinesAreClean(lines: seq<string>)
    requires KeyLines(lines)
    ensures AllClean(lines)
  {
    forall i | 0 <= i < |lines| ensures Clean(lines[i]) { NoControlIsClean(lines[i]); }
  }

  lemma HeadIsClean(id: string, e: Entry)
    requires ValidId(id)
    ensures AllClean([BeginMarker(id), GENERATED, TOKEN_NOTE, HeaderLine(e.name)])
    ensures AllClean([EndMarker(id)])
  {
    GeneratedIsFixed();
    TokenNoteIsFixed();
    MarkersAreFixed(id);
    HeaderIsPlain(e);
    NoControlIsClean(BeginMarker(id));
    NoControlIsClean(GENERATED);
    NoControlIsClean(TOKEN_NOTE);
    NoControlIsClean(HeaderLine(e.name));
    NoControlIsClean(EndMarker(id));
  }

  lemma BlockIsClean(id: string, e: Entry)
    requires ValidId(id) && PrintableTimeouts(e)
    ensures AllClean(Block(id, e))
  {
    var head := [BeginMarker(id), GENERATED, TOKEN_NOTE, HeaderLine(e.name)];
    EntryIsHeaderAndKeys(e);
    assert Block(id, e) == head + KeysOf(e) + [EndMarker(id)];
    HeadIsClean(id, e);
    KeysAreKeyLines(e);
    KeyLinesAreClean(KeysOf(e));
    ConcatClean(head, KeysOf(e));
    ConcatClean(head + KeysOf(e), [EndMarker(id)]);
  }

  /** Splitting the rendered region gives its lines. */
  lemma RegionReadsBack(id: string, e: Entry)
    requires ValidId(id) && PrintableTimeouts(e)
    ensures SplitLines(RenderRegion(id, e)) == Block(id, e)
  {
    BlockIsClean(id, e);
    ReadBack(Block(id, e));
  }

  lemma MarkersDiffer(id: string)
    ensures BeginMarker(id) != EndMarker(id)
  {
    assert BeginMarker(id)[7] == 'b' && EndMarker(id)[7] == 'e';
  }

  // ---------------------------------------------------------------- where a block is found

  predicate Without(texts: seq<string>, from: nat, text: string) {
    forall i :: from <= i < |texts| ==> texts[i] != text
  }

  lemma FoundAt(texts: seq<string>, i: nat, text: string, k: nat)
    requires i <= k < |texts| && texts[k] == text
    requires forall j :: i <= j < k ==> texts[j] != text
    ensures FindText(texts, i, text) == k
  {
  }

  /** A block that opens and closes a region, with nothing between that closes it early. */
  predicate Shaped(block: seq<string>, begin: string, end: string) {
    && begin != end
    && |block| >= 2
    && block[0] == begin
    && block[|block| - 1] == end
    && forall i :: 0 < i < |block| - 1 ==> block[i] != end
  }

  lemma BeginFound(before: seq<string>, begin: string, rest: seq<string>)
    requires Without(before, 0, begin) && rest != [] && rest[0] == begin
    ensures FindText(before + rest, 0, begin) == |before|
  {
    var texts := before + rest;
    forall j | 0 <= j < |before| ensures texts[j] != begin { assert texts[j] == before[j]; }
    FoundAt(texts, 0, begin, |before|);
  }

  lemma EndFound(before: seq<string>, begin: string, end: string, block: seq<string>, after: seq<string>, from: nat)
    requires Shaped(block, begin, end)
    requires from <= |before| + 1 && Without(before, from, end)
    ensures FindText(before + block + after, from, end) == |before| + |block| - 1
  {
    var texts, last := before + block + after, |before| + |block| - 1;
    forall j | from <= j < last ensures texts[j] != end {
      if j < |before| { assert texts[j] == before[j]; } else { assert texts[j] == block[j - |before|]; }
    }
    FoundAt(texts, from, end, last);
  }

  /** A region after texts without a begin marker is found at exactly its own place. */
  lemma RegionFound(before: seq<string>, begin: string, end: string, block: seq<string>, after: seq<string>)
    requires Shaped(block, begin, end) && Without(before, 0, begin)
    ensures FindRegion(before + block + after, begin, end) == Some(Span(|before|, |before| + |block| - 1))
  {
    BeginFound(before, begin, block + after);
    assert before + (block + after) == before + block + after;
    EndFound(before, begin, end, block, after, |before| + 1);
  }

  lemma FoundStays(a: seq<string>, rest: seq<string>, text: string)
    requires FindText(a, 0, text) < |a|
    ensures FindText(a + rest, 0, text) == FindText(a, 0, text)
  {
    var k := FindText(a, 0, text);
    forall j | 0 <= j <= k ensures (a + rest)[j] == a[j] {}
    FoundAt(a + rest, 0, text, k);
  }

  /** A begin marker left open before the place swallows everything up to the new block. */
  lemma RegionSwallows(before: seq<string>, begin: string, end: string, block: seq<string>, after: seq<string>)
    requires Shaped(block, begin, end) && !Without(before, 0, begin)
    requires FindRegion(before, begin, end).None?
    ensures FindText(before, 0, begin) < |before|
    ensures FindRegion(before + block + after, begin, end)
         == Some(Span(FindText(before, 0, begin), |before| + |block| - 1))
  {
    var k := FindText(before, 0, begin);
    FoundStays(before, block + after, begin);
    assert before + (block + after) == before + block + after;
    EndFound(before, begin, end, block, after, k + 1);
  }

  // ---------------------------------------------------------------- where a merge writes

  /** The lines before and after the place a merge writes to. */
  function Before(lines: seq<string>, at: Location): seq<string>
    requires Within(at, lines)
  {
    if at.Managed? || at.Foreign? then lines[..at.first] else AppendBlock(lines, [])
  }

  function After(lines: seq<string>, at: Location): seq<string>
    requires Within(at, lines)
  {
    if at.Managed? || at.Foreign? then lines[at.last + 1..] else []
  }

  lemma MergeSplits(lines: seq<string>, at: Location, block: seq<string>)
    requires Within(at, lines)
    ensures MergeAt(lines, at, block) == Before(lines, at) + block + After(lines, at)
  {
  }
}
