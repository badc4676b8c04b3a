/**
 What one project's region looks like to a search for another project's entry
 (internal/codexconfig/merge.go:60-74, 151-210).

 The search has three parts, tried in this order, and a region of another project must be
 invisible to each:

   the markers       are the project's own, because identifiers differ;
   the table header  names another entry, because entry names differ when identifiers do;
   the inline keys   are only looked for directly under [mcp_servers], and the block's own
                     header ends that table before its keys begin.

 The last part depends on where a scan stands when it reaches the block, so it is stated for
 both possibilities: directly under [mcp_servers], or not. A stretch of lines that is
 invisible from either is called harmless, and harmless stretches can be put one after
 another. The parsers of single lines are kept out of these arguments: each line is replaced
 first by what the parsers make of it, so that only the few lemmas about particular lines
 look inside them.
 */
module CodexNeighbours {
  import opened Text
  import opened Toml
  import opened CodexConfig
  import opened CodexRegions
  import opened CodexMerge

  // ---------------------------------------------------------------- names and markers of other projects

  lemma NameCharInjective(a: char, b: char)
    requires IdChar(a) && IdChar(b) && NameChar(a) == NameChar(b)
    ensures a == b
  {
  }

  /** A name is a bare key that shows its project: the prefix, then the identifier with its hyphens lowered. */
  lemma NameShowsTheProject(id: string)
    requires ValidId(id)
    ensures var name := EntryName(id);
            && |name| == 5 + |id| && name[..5] == "lctk_" && IsBareKey(name)
            && forall i :: 0 <= i < |id| ==> name[5 + i] == if id[i] == '-' then '_' else id[i]
  {
    var name := EntryName(id);
    assert |PREFIX| == 5;
    forall i | 0 <= i < |id| ensures name[5 + i] == NameChar(id[i]) && IdChar(id[i]) {}
    forall i | 0 <= i < |name| ensures IsBare(name[i]) {
      if i < 5 { assert name[i] == PREFIX[i]; } else { assert name[i] == NameChar(id[i - 5]); }
    }
  }

  /** Distinct identifiers have distinct entry names: the hyphen is the only character that changes. */
  lemma EntryNameInjective(a: string, b: string)
    requires ValidId(a) && ValidId(b) && EntryName(a) == EntryName(b)
    ensures a == b
  {
    var n := |PREFIX|;
    assert |a| == |b|;
    forall i | 0 <= i < |a| ensures a[i] == b[i] {
      assert EntryName(a)[n + i] == NameChar(a[i]) && EntryName(b)[n + i] == NameChar(b[i]);
      NameCharInjective(a[i], b[i]);
    }
  }

  lemma EntryNameIsPlain(id: string)
    requires ValidId(id)
    ensures NoControl(EntryName(id))
  {
    var n := |PREFIX|;
    forall i | 0 <= i < |EntryName(id)| ensures !IsControl(EntryName(id)[i]) {
      if i >= n { assert EntryName(id)[i] == NameChar(id[i - n]); }
    }
  }

  lemma MarkersAreOwn(a: string, b: string)
    requires a != b
    ensures BeginMarker(a) != BeginMarker(b) && EndMarker(a) != EndMarker(b)
    ensures BeginMarker(a) != EndMarker(b) && EndMarker(a) != BeginMarker(b)
  {
    var begin, end := "# lctk:begin ", "# lctk:end ";
    assert BeginMarker(a)[|begin|..] == a && BeginMarker(b)[|begin|..] == b;
    assert EndMarker(a)[|end|..] == a && EndMarker(b)[|end|..] == b;
    assert BeginMarker(a)[7] == 'b' && BeginMarker(b)[7] == 'b';
    assert EndMarker(a)[7] == 'e' && EndMarker(b)[7] == 'e';
  }

  lemma QuietConcat(a: seq<string>, b: seq<string>, id: string)
    requires AllQuiet(a, id) && AllQuiet(b, id)
    ensures AllQuiet(a + b, id)
  {
  }

  /** Another project's region holds none of the project's markers. */
  lemma BlockIsQuiet(other: string, e: Entry, id: string)
    requires ValidId(other) && PrintableTimeouts(e) && other != id
    ensures AllQuiet(Block(other, e), id)
  {
    MarkersAreFixed(other);
    MarkersAreOwn(other, id);
    InnerIsQuiet(e, id);
    assert AllQuiet([BeginMarker(other)], id) && AllQuiet([EndMarker(other)], id);
    QuietConcat([BeginMarker(other)], Inner(e), id);
    QuietConcat([BeginMarker(other)] + Inner(e), [EndMarker(other)], id);
  }

  lemma QuietHasNoBegin(lines: seq<string>, id: string)
    requires AllQuiet(lines, id)
    ensures NoBegin(lines, id)
  {
    forall i | 0 <= i < |lines| ensures Texts(lines)[i] != BeginMarker(id) { assert Quiet(lines[i], id); }
  }

  // ---------------------------------------------------------------- what the parsers make of a block

  function HeadersOf(lines: seq<string>): seq<Path> { Map(ParseTableHeader, lines) }

  function KeysIn(lines: seq<string>): seq<Option<string>> { Map(ParseKeyName, lines) }

  lemma NoBracketNoHeader(line: string)
    requires line != "" && !IsSpace(line[0]) && line[0] != '['
    ensures ParseTableHeader(line) == None
  {
    TrimKeepsHead(line);
    assert "["[0] == '[';
  }

  lemma CommentHasNoKey(line: string)
    requires line != "" && line[0] == '#'
    ensures ParseKeyName(line) == None
  {
    TrimKeepsHead(line);
    assert TrimSpace(line) == "#" + TrimSpace(line)[1..];
  }

  lemma BlankIsNothing()
    ensures ParseTableHeader("") == None && ParseKeyName("") == None
  {
    assert TrimSpace("") == "";
  }

  // ---------------------------------------------------------------- inline keys over a concatenation

  /** Whether the lines after these sit directly under `[mcp_servers]`. */
  function ServersAfter(headers: seq<Path>, i: nat, s: bool): bool
    requires i <= |headers|
    decreases |headers| - i
  {
    if i == |headers| then s else ServersAfter(headers, i + 1, InServers(headers[i], s))
  }

  lemma {:induction false} InlineShift(h1: seq<Path>, k1: seq<Option<string>>, h2: seq<Path>, k2: seq<Option<string>>,
                                       j: nat, name: string, s: bool)
    requires |h1| == |k1| && |h2| == |k2| && j <= |h2|
    ensures FindInline(h1 + h2, k1 + k2, |h1| + j, name, s) == |h1| + FindInline(h2, k2, j, name, s)
    decreases |h2| - j
  {
    if j < |h2| {
      assert (h1 + h2)[|h1| + j] == h2[j] && (k1 + k2)[|h1| + j] == k2[j];
      InlineShift(h1, k1, h2, k2, j + 1, name, InServers(h2[j], s));
    }
  }

  lemma {:induction false} InlineConcat(h1: seq<Path>, k1: seq<Option<string>>, h2: seq<Path>, k2: seq<Option<string>>,
                                        i: nat, name: string, s: bool)
    requires |h1| == |k1| && |h2| == |k2| && i <= |h1|
    requires FindInline(h1, k1, i, name, s) == |h1|
    ensures FindInline(h1 + h2, k1 + k2, i, name, s) == |h1| + FindInline(h2, k2, 0, name, ServersAfter(h1, i, s))
    ensures ServersAfter(h1 + h2, i, s) == ServersAfter(h2, 0, ServersAfter(h1, i, s))
    decreases |h1| - i
  {
    if i == |h1| {
      InlineShift(h1, k1, h2, k2, 0, name, s);
      AfterShift(h1, h2, 0, s);
    } else {
      assert (h1 + h2)[i] == h1[i] && (k1 + k2)[i] == k1[i];
      InlineConcat(h1, k1, h2, k2, i + 1, name, InServers(h1[i], s));
    }
  }

  lemma {:induction false} AfterShift(h1: seq<Path>, h2: seq<Path>, j: nat, s: bool)
    requires j <= |h2|
    ensures ServersAfter(h1 + h2, |h1| + j, s) == ServersAfter(h2, j, s)
    decreases |h2| - j
  {
    if j < |h2| {
      assert (h1 + h2)[|h1| + j] == h2[j];
      AfterShift(h1, h2, j + 1, InServers(h2[j], s));
    }
  }

  /** No inline key of this name in the lines, read from state `s`. */
  predicate NoInline(lines: seq<string>, name: string, s: bool) {
    FindInline(HeadersOf(lines), KeysIn(lines), 0, name, s) == |lines|
  }

  function StateAfter(lines: seq<string>, s: bool): bool { ServersAfter(HeadersOf(lines), 0, s) }

  lemma NoInlineConcat(a: seq<string>, b: seq<string>, name: string, s: bool)
    requires NoInline(a, name, s) && NoInline(b, name, StateAfter(a, s))
    ensures NoInline(a + b, name, s) && StateAfter(a + b, s) == StateAfter(b, StateAfter(a, s))
  {
    MapConcat(ParseTableHeader, a, b);
    MapConcat(ParseKeyName, a, b);
    InlineConcat(HeadersOf(a), KeysIn(a), HeadersOf(b), KeysIn(b), 0, name, s);
  }

  lemma {:induction false} KeylessFrom(headers: seq<Path>, keys: seq<Option<string>>, i: nat, name: string, s: bool)
    requires |headers| == |keys| && i <= |headers|
    requires forall j :: 0 <= j < |keys| ==> keys[j] == None
    ensures FindInline(headers, keys, i, name, s) == |headers|
    decreases |headers| - i
  {
    if i < |headers| { KeylessFrom(headers, keys, i + 1, name, InServers(headers[i], s)); }
  }

  lemma {:induction false} HeaderlessFrom(headers: seq<Path>, keys: seq<Option<string>>, i: nat, name: string)
    requires |headers| == |keys| && i <= |headers|
    requires forall j :: 0 <= j < |headers| ==> headers[j] == None
    ensures FindInline(headers, keys, i, name, false) == |headers|
    ensures !ServersAfter(headers, i, false)
    decreases |headers| - i
  {
    if i < |headers| { HeaderlessFrom(headers, keys, i + 1, name); }
  }

  /** Nothing in these lines is the named server, whatever table they continue. */
  predicate Harmless(lines: seq<string>, name: string) {
    && NoInline(lines, name, false)
    && NoInline(lines, name, true)
    && forall i :: 0 <= i < |lines| ==> !IsServer(HeadersOf(lines)[i], name)
  }

  lemma HarmlessConcat(a: seq<string>, b: seq<string>, name: string)
    requires Harmless(a, name) && Harmless(b, name)
    ensures Harmless(a + b, name)
  {
    NoInlineConcat(a, b, name, false);
    NoInlineConcat(a, b, name, true);
    MapConcat(ParseTableHeader, a, b);
  }

  lemma CommentsAreHarmless(lines: seq<string>, name: string)
    requires forall i :: 0 <= i < |lines| ==> lines[i] != "" && lines[i][0] == '#'
    ensures Harmless(lines, name)
  {
    forall i | 0 <= i < |lines| ensures KeysIn(lines)[i] == None && HeadersOf(lines)[i] == None {
      CommentHasNoKey(lines[i]);
      NoBracketNoHeader(lines[i]);
    }
    KeylessFrom(HeadersOf(lines), KeysIn(lines), 0, name, false);
    KeylessFrom(HeadersOf(lines), KeysIn(lines), 0, name, true);
  }

  lemma BlankIsHarmless(name: string)
    ensures Harmless([""], name)
  {
    BlankIsNothing();
    assert KeysIn([""])[0] == None && HeadersOf([""])[0] == None;
    KeylessFrom(HeadersOf([""]), KeysIn([""]), 0, name, false);
    KeylessFrom(HeadersOf([""]), KeysIn([""]), 0, name, true);
  }

  lemma KeyLinesHaveNoHeader(lines: seq<string>)
    requires KeyLines(lines)
    ensures forall i :: 0 <= i < |lines| ==> HeadersOf(lines)[i] == None
  {
    forall i | 0 <= i < |lines| ensures HeadersOf(lines)[i] == None {
      assert KeyLine(lines[i]);
      NoBracketNoHeader(lines[i]);
    }
  }

  /** The header and keys of an entry with another name. */
  lemma EntryIsHarmless(e: Entry, name: string)
    requires PrintableTimeouts(e) && NoControl(e.name) && e.name != name
    ensures Harmless(RenderEntry(e), name)
  {
    var header, keys := [HeaderLine(e.name)], KeysOf(e);
    EntryIsHeaderAndKeys(e);
    KeysAreKeyLines(e);
    KeyLinesHaveNoHeader(keys);
    HeaderThenKeys(e.name, keys, name);
  }

  lemma HeaderThenKeys(own: string, keys: seq<string>, name: string)
    requires NoControl(own) && own != name
    requires forall i :: 0 <= i < |keys| ==> HeadersOf(keys)[i] == None
    ensures Harmless([HeaderLine(own)] + keys, name)
  {
    var header := [HeaderLine(own)];
    HeaderRoundTrip(own);
    assert HeadersOf(header)[0] == Some([SERVERS, own]);
    HeaderState(header, own, name);
    HeaderlessFrom(HeadersOf(keys), KeysIn(keys), 0, name);
    NoInlineConcat(header, keys, name, false);
    NoInlineConcat(header, keys, name, true);
    MapConcat(ParseTableHeader, header, keys);
  }

  lemma HeaderState(header: seq<string>, own: string, name: string)
    requires |header| == 1 && HeadersOf(header)[0] == Some([SERVERS, own])
    ensures NoInline(header, name, false) && NoInline(header, name, true)
    ensures !StateAfter(header, false) && !StateAfter(header, true)
  {
    var headers := HeadersOf(header);
    assert !InServers(headers[0], false) && !InServers(headers[0], true);
    assert !ServersAfter(headers, 1, false);
  }

  lemma FrameIsHarmless(id: string, name: string)
    ensures Harmless([BeginMarker(id), GENERATED, TOKEN_NOTE], name) && Harmless([EndMarker(id)], name)
  {
    GeneratedIsFixed();
    TokenNoteIsFixed();
    assert GENERATED[0] == '#' && TOKEN_NOTE[0] == '#';
    CommentsAreHarmless([BeginMarker(id), GENERATED, TOKEN_NOTE], name);
    CommentsAreHarmless([EndMarker(id)], name);
  }

  lemma BlockParts(id: string, e: Entry)
    ensures Block(id, e) == [BeginMarker(id), GENERATED, TOKEN_NOTE] + RenderEntry(e) + [EndMarker(id)]
  {
  }

  lemma FramedIsHarmless(id: string, entry: seq<string>, name: string)
    requires Harmless(entry, name)
    ensures Harmless([BeginMarker(id), GENERATED, TOKEN_NOTE] + entry + [EndMarker(id)], name)
  {
    FrameIsHarmless(id, name);
    HarmlessConcat([BeginMarker(id), GENERATED, TOKEN_NOTE], entry, name);
    HarmlessConcat([BeginMarker(id), GENERATED, TOKEN_NOTE] + entry, [EndMarker(id)], name);
  }

  /** Another project's region looks like nothing of this project's. */
  lemma BlockIsHarmless(other: string, e: Entry, id: string)
    requires ValidId(other) && ValidId(id) && other != id
    requires PrintableTimeouts(e) && e.name == EntryName(other)
    ensures Harmless(Block(other, e), EntryName(id))
  {
    if EntryName(other) == EntryName(id) { EntryNameInjective(other, id); }
    EntryNameIsPlain(other);
    EntryIsHarmless(e, EntryName(id));
    FramedIsHarmless(other, RenderEntry(e), EntryName(id));
    BlockParts(other, e);
  }
}
