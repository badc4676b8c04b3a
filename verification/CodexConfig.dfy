/**
 One project's region in a Codex configuration that other programs also write
 (internal/codexconfig/entry.go and merge.go).

 `valid` stands for the TOML parser: any predicate on documents.
 */
module CodexConfig {
  import opened Text
  import opened Toml
  import opened CodexLines

  // ---------------------------------------------------------------- the entry

  /** Timeouts are the decimal text printed for them, absent when not positive. */
  datatype Entry = Entry(
    name: string,
    url: string,
    tokenVar: string,
    startup: Option<string>,
    tool: Option<string>,
    enabled: bool)

  const PREFIX := "lctk_"

  function NameChar(c: char): char {
    if 'a' <= c <= 'z' || '0' <= c <= '9' then c
    else if 'A' <= c <= 'Z' then (c as int - 'A' as int + 'a' as int) as char
    else '_'
  }

  function EntryName(id: string): string {
    PREFIX + seq(|id|, i requires 0 <= i < |id| => NameChar(id[i]))
  }

  /** Project identifiers: lower-case letters, digits and hyphens. */
  predicate IdChar(c: char) { 'a' <= c <= 'z' || '0' <= c <= '9' || c == '-' }

  predicate ValidId(id: string) { id != "" && forall i :: 0 <= i < |id| ==> IdChar(id[i]) }

  predicate ValidEntry(e: Entry) { !IsBlank(e.name) && !IsBlank(e.url) && !IsBlank(e.tokenVar) }

  /** A printed number holds digits and dots only. */
  predicate NumberText(s: string) {
    s != "" && forall i :: 0 <= i < |s| ==> '0' <= s[i] <= '9' || s[i] == '.'
  }

  predicate PrintableTimeouts(e: Entry) {
    && (e.startup.Some? ==> NumberText(e.startup.value))
    && (e.tool.Some? ==> NumberText(e.tool.value))
  }

  function Optional(key: string, value: Option<string>): seq<string> {
    match value case None => [] case Some(v) => [key + " = " + v]
  }

  function RenderEntry(e: Entry): seq<string> {
    ["[" + SERVERS + "." + TomlKey(e.name) + "]",
     "url = " + TomlString(e.url),
     "bearer_token_env_var = " + TomlString(e.tokenVar)]
    + Optional("startup_timeout_sec", e.startup)
    + Optional("tool_timeout_sec", e.tool)
    + ["enabled = " + (if e.enabled then "true" else "false")]
  }

  // ---------------------------------------------------------------- the region

  function BeginMarker(id: string): string { "# lctk:begin " + id }

  function EndMarker(id: string): string { "# lctk:end " + id }

  const GENERATED := "# Generated by LCTK. " + ("This region is rewritten; " + "edit it through lctk.")
  const TOKEN_NOTE :=
    "# The grant token is " + ("read from the named " + ("environment variable " + ("and is never " + "stored here.")))

  /** The lines between the markers. */
  function Inner(e: Entry): seq<string> { [GENERATED, TOKEN_NOTE] + RenderEntry(e) }

  function Block(id: string, e: Entry): seq<string> {
    [BeginMarker(id)] + Inner(e) + [EndMarker(id)]
  }

  /** The region as the text that is spliced in. */
  function RenderRegion(id: string, e: Entry): string { JoinLines(Block(id, e)) }

  datatype Span = Span(first: nat, last: int)

  function Map<A, B>(f: A -> B, s: seq<A>): (r: seq<B>)
    ensures |r| == |s|
  {
    seq(|s|, i requires 0 <= i < |s| => f(s[i]))
  }

  /** The first index at or after `i` holding `text`, or the length. */
  function FindText(texts: seq<string>, i: nat, text: string): (k: nat)
    requires i <= |texts|
    ensures i <= k <= |texts|
    ensures k < |texts| ==> texts[k] == text
    ensures forall j :: i <= j < k ==> texts[j] != text
    decreases |texts| - i
  {
    if i == |texts| || texts[i] == text then i else FindText(texts, i + 1, text)
  }

  /** From the first begin text to the next end text after it. */
  function FindRegion(texts: seq<string>, begin: string, end: string): (s: Option<Span>)
    ensures s.Some? ==> s.value.first < s.value.last < |texts|
  {
    var first := FindText(texts, 0, begin);
    if first == |texts| then None
    else
      var last := FindText(texts, first + 1, end);
      if last == |texts| then None else Some(Span(first, last))
  }

  function FindManagedRegion(lines: seq<string>, id: string): (s: Option<Span>)
    ensures s.Some? ==> s.value.first < s.value.last < |lines|
  {
    FindRegion(Map(TrimSpace, lines), BeginMarker(id), EndMarker(id))
  }

  method ManagedRegion(lines: seq<string>, begin: string, end: string, trim: string -> string)
    returns (region: Option<Span>)
    ensures region == FindRegion(Map(trim, lines), begin, end)
  {
    ghost var texts := Map(trim, lines);
    var first := -1;
    for i := 0 to |lines|
      invariant first < 0 ==> FindText(texts, 0, begin) == FindText(texts, i, begin)
      invariant first >= 0 ==> first < i && FindText(texts, 0, begin) == first
      invariant first >= 0 ==> FindText(texts, first + 1, end) == FindText(texts, i, end)
    {
      var trimmed := trim(lines[i]);
      if first < 0 && trimmed == begin {
        first := i;
      } else if first >= 0 && trimmed == end {
        return Some(Span(first, i));
      }
    }
    return None;
  }

  // ---------------------------------------------------------------- entries written by others

  type Path = Option<seq<string>>

  /** The header `[mcp_servers.<name>]` itself. */
  predicate IsServer(path: Path, name: string) {
    path.Some? && |path.value| == 2 && path.value[0] == SERVERS && path.value[1] == name
  }

  predicate IsSubTable(path: Path, name: string) {
    path.Some? && |path.value| > 2 && path.value[0] == SERVERS && path.value[1] == name
  }

  /** The server's header at or after `i`, or the length. */
  function FindServer(headers: seq<Path>, i: nat, name: string): (k: nat)
    requires i <= |headers|
    ensures i <= k <= |headers|
    ensures k < |headers| ==> IsServer(headers[k], name)
    ensures forall j :: i <= j < k ==> !IsServer(headers[j], name)
    decreases |headers| - i
  {
    if i == |headers| || IsServer(headers[i], name) then i else FindServer(headers, i + 1, name)
  }

  /** The first header at or after `i` that is not one of the server's sub-tables. */
  function FindServerEnd(headers: seq<Path>, i: nat, name: string): (k: nat)
    requires i <= |headers|
    ensures i <= k <= |headers|
    decreases |headers| - i
  {
    if i == |headers| || (headers[i].Some? && !IsSubTable(headers[i], name)) then i
    else FindServerEnd(headers, i + 1, name)
  }

  function FindServerTable(headers: seq<Path>, name: string): (s: Option<Span>)
    ensures s.Some? ==> s.value.first <= s.value.last < |headers|
  {
    var first := FindServer(headers, 0, name);
    if first == |headers| then None else Some(Span(first, FindServerEnd(headers, first + 1, name) - 1))
  }

  method ServerTable(lines: seq<string>, name: string, parse: string -> Path) returns (table: Option<Span>)
    ensures table == FindServerTable(Map(parse, lines), name)
  {
    ghost var headers := Map(parse, lines);
    var first := -1;
    for i := 0 to |lines|
      invariant first < 0 ==> FindServer(headers, 0, name) == FindServer(headers, i, name)
      invariant first >= 0 ==> first < i && FindServer(headers, 0, name) == first
      invariant first >= 0 ==> FindServerEnd(headers, first + 1, name) == FindServerEnd(headers, i, name)
    {
      var path := parse(lines[i]);
      if path.None? {
        continue;
      }
      if first < 0 {
        if IsServer(path, name) {
          first := i;
        }
        continue;
      }
      if IsSubTable(path, name) {
        continue;
      }
      return Some(Span(first, i - 1));
    }
    if first < 0 {
      return None;
    }
    return Some(Span(first, |lines| - 1));
  }

  /** Whether lines after this one sit directly under `[mcp_servers]`. */
  function InServers(header: Path, before: bool): bool {
    match header
    case None => before
    case Some(path) => |path| == 1 && path[0] == SERVERS
  }

  /** The first `<name> = ...` directly under `[mcp_servers]`, or the length. */
  function FindInline(headers: seq<Path>, keys: seq<Option<string>>, i: nat, name: string, inServers: bool): (k: nat)
    requires |keys| == |headers| && i <= |headers|
    ensures i <= k <= |headers|
    decreases |headers| - i
  {
    if i == |headers| || (headers[i].None? && inServers && keys[i] == Some(name)) then i
    else FindInline(headers, keys, i + 1, name, InServers(headers[i], inServers))
  }

  method InlineServerKey(lines: seq<string>, name: string,
                         parse: string -> Path, parseKey: string -> Option<string>) returns (index: nat)
    ensures index == FindInline(Map(parse, lines), Map(parseKey, lines), 0, name, false)
  {
    ghost var headers, keys := Map(parse, lines), Map(parseKey, lines);
    var inServers := false;
    for i := 0 to |lines|
      invariant FindInline(headers, keys, 0, name, false) == FindInline(headers, keys, i, name, inServers)
    {
      var path := parse(lines[i]);
      if path.Some? {
        inServers := |path.value| == 1 && path.value[0] == SERVERS;
        continue;
      }
      if !inServers {
        continue;
      }
      var key := parseKey(lines[i]);
      if key == Some(name) {
        return i;
      }
    }
    return |lines|;
  }

  // ---------------------------------------------------------------- locate, merge, remove

  datatype Location =
    | Absent
    | Managed(first: nat, last: nat)
    | Foreign(first: nat, last: nat)
    | ForeignInline(index: nat)

  function LocateLines(lines: seq<string>, id: string): (at: Location)
    ensures Within(at, lines)
  {
    var name, headers := EntryName(id), Map(ParseTableHeader, lines);
    var inline := FindInline(headers, Map(ParseKeyName, lines), 0, name, false);
    match FindManagedRegion(lines, id)
    case Some(s) => Managed(s.first, s.last)
    case None =>
      match FindServerTable(headers, name)
      case Some(s) => Foreign(s.first, s.last)
      case None => if inline < |lines| then ForeignInline(inline) else Absent
  }

  method LocateEntry(lines: seq<string>, id: string) returns (at: Location)
    ensures at == LocateLines(lines, id)
  {
    var name := EntryName(id);
    var region := ManagedRegion(lines, BeginMarker(id), EndMarker(id), TrimSpace);
    if region.Some? {
      return Managed(region.value.first, region.value.last);
    }
    var table := ServerTable(lines, name, ParseTableHeader);
    if table.Some? {
      return Foreign(table.value.first, table.value.last);
    }
    var index := InlineServerKey(lines, name, ParseTableHeader, ParseKeyName);
    return if index < |lines| then ForeignInline(index) else Absent;
  }

  function Locate(document: string, id: string): Location { LocateLines(SplitLines(document), id) }

  datatype Failure = InvalidEntry | ExistingInvalid | ForeignEntry | ForeignInlineEntry | InvalidDocument

  datatype Outcome = Ok(document: string, removed: bool) | Err(failure: Failure)

  predicate Within(at: Location, lines: seq<string>) {
    && (at.Managed? ==> at.first < at.last < |lines|)
    && (at.Foreign? ==> at.first <= at.last < |lines|)
  }

  function MergeAt(lines: seq<string>, at: Location, block: seq<string>): seq<string>
    requires Within(at, lines)
  {
    if at.Managed? || at.Foreign? then ReplaceLines(lines, at.first, at.last, block) else AppendBlock(lines, block)
  }

  function Merge(document: string, id: string, e: Entry, force: bool, valid: string -> bool): Outcome {
    if !ValidEntry(e) then Err(InvalidEntry)
    else if TrimSpace(document) != "" && !valid(document) then Err(ExistingInvalid)
    else
      var at := Locate(document, id);
      if at.Foreign? && !force then Err(ForeignEntry)
      else if at.ForeignInline? then Err(ForeignInlineEntry)
      else
        var result := JoinLines(MergeAt(SplitLines(document), at, SplitLines(RenderRegion(id, e))));
        if valid(result) then Ok(result, false) else Err(InvalidDocument)
  }

  function Remove(document: string, id: string, valid: string -> bool): Outcome {
    var lines, at := SplitLines(document), Locate(document, id);
    if !at.Managed? then Ok(document, false)
    else
      var result := JoinLines(TrimTrailingBlanks(ReplaceLines(lines, at.first, at.last, [])));
      if TrimSpace(result) != "" && !valid(result) then Err(InvalidDocument) else Ok(result, true)
  }
}
