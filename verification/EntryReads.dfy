/** A rendered entry reads back as what it was rendered from (internal/codexconfig/entry.go:75-134; TOML v1.0.0). */
module EntryReads {
  import opened Text
  import opened Toml
  import opened TomlPaths
  import opened CodexConfig
  import opened CodexRegions

  /** What stands after a line's first equals sign. */
  function ValueText(line: string): string {
    var equals := Index(line, '=');
    if equals < 0 then "" else TrimSpace(line[equals + 1..])
  }

  predicate Assigns(line: string, key: string, value: string) { ParseKeyName(line) == Some(key) && ValueText(line) == value }

  /** A line assigns the value, and no other line assigns to the key. */
  ghost predicate Holds(lines: seq<string>, key: string, value: string) {
    exists i :: 0 <= i < |lines| && Assigns(lines[i], key, value) &&
                forall j :: 0 <= j < |lines| && ParseKeyName(lines[j]) == Some(key) ==> j == i
  }

  ghost predicate HoldsNothing(lines: seq<string>, key: string) {
    forall i :: 0 <= i < |lines| ==> ParseKeyName(lines[i]) != Some(key)
  }

  /** The key holds a string, read by TOML's rules. */
  ghost predicate HoldsString(lines: seq<string>, key: string, s: string) {
    exists value :: Holds(lines, key, value) && ReadString(value) == Some(s)
  }

  lemma KeyIsRead(key: string, value: string)
    requires IsBareKey(key) && value != "" && Trimmed(value)
    ensures ParseKeyName(key + " " + "=" + (" " + value)) == Some(key)
  {
    var line := key + " " + "=" + (" " + value);
    assert ("=" + (" " + value))[|value| + 1] == value[|value| - 1];
    assert Omits(" ", '=') && Omits(key, '=');
    KeyNameIsExact("", Bare(key), " ", " " + value);
    assert "" + line == line;
  }

  lemma ValueIsRead(text: string, value: string)
    requires Omits(text, '=') && value != "" && Trimmed(value)
    ensures ValueText(text + "=" + (" " + value)) == value
  {
    var line := text + "=" + (" " + value);
    FirstEquals(text, " " + value);
    assert line[|text| + 1..] == " " + value;
    TrimPadded(" ", value, "");
    assert " " + value + "" == " " + value;
  }

  lemma KeyLineReads(key: string, value: string)
    requires IsBareKey(key) && value != "" && Trimmed(value)
    ensures Assigns(key + " = " + value, key, value)
  {
    assert key + " = " + value == key + " " + "=" + (" " + value);
    assert Omits(key + " ", '=');
    KeyIsRead(key, value);
    ValueIsRead(key + " ", value);
  }

  lemma StringIsTrimmed(s: string)
    ensures TomlString(s) != "" && Trimmed(TomlString(s))
  {
  }

  lemma NumberIsTrimmed(s: string)
    requires NumberText(s)
    ensures Trimmed(s)
  {
  }

  /** The keys of an entry in the order they are written, with their values. */
  function Pairs(e: Entry): seq<(string, string)> {
    [("url", TomlString(e.url)), ("bearer_token_env_var", TomlString(e.tokenVar))]
    + Timeout("startup_timeout_sec", e.startup)
    + Timeout("tool_timeout_sec", e.tool)
    + [("enabled", if e.enabled then "true" else "false")]
  }

  lemma KeysAreBare()
    ensures IsBareKey("url") && IsBareKey("bearer_token_env_var") && IsBareKey("startup_timeout_sec")
    ensures IsBareKey("tool_timeout_sec") && IsBareKey("enabled")
  {
  }

  lemma PairsAreFit(e: Entry, k: nat)
    requires PrintableTimeouts(e) && k < |Pairs(e)|
    ensures IsBareKey(Pairs(e)[k].0) && Pairs(e)[k].1 != "" && Trimmed(Pairs(e)[k].1)
  {
    KeysAreBare();
    StringIsTrimmed(e.url);
    StringIsTrimmed(e.tokenVar);
    if e.startup.Some? { NumberIsTrimmed(e.startup.value); }
    if e.tool.Some? { NumberIsTrimmed(e.tool.value); }
  }

  function LineOf(p: (string, string)): string { p.0 + " = " + p.1 }

  predicate Prints(lines: seq<string>, pairs: seq<(string, string)>) {
    |lines| == |pairs| && forall k :: 0 <= k < |pairs| ==> lines[k] == LineOf(pairs[k])
  }

  lemma PrintsConcat(a: seq<string>, p: seq<(string, string)>, b: seq<string>, q: seq<(string, string)>)
    requires Prints(a, p) && Prints(b, q)
    ensures Prints(a + b, p + q)
  {
  }

  function Timeout(key: string, value: Option<string>): seq<(string, string)> {
    if value.Some? then [(key, value.value)] else []
  }

  lemma KeysOfArePairs(e: Entry)
    ensures Prints(KeysOf(e), Pairs(e))
  {
    var strings := [("url", TomlString(e.url)), ("bearer_token_env_var", TomlString(e.tokenVar))];
    var startup, tool := Timeout("startup_timeout_sec", e.startup), Timeout("tool_timeout_sec", e.tool);
    var enabled := [("enabled", if e.enabled then "true" else "false")];
    assert Prints(Values(e), strings);
    assert Prints(Optional("startup_timeout_sec", e.startup), startup);
    assert Prints(Optional("tool_timeout_sec", e.tool), tool);
    assert Prints(Enabled(e), enabled);
    PrintsConcat(Optional("tool_timeout_sec", e.tool), tool, Enabled(e), enabled);
    PrintsConcat(Optional("startup_timeout_sec", e.startup), startup, Optional("tool_timeout_sec", e.tool) + Enabled(e), tool + enabled);
    PrintsConcat(Values(e), strings, Optional("startup_timeout_sec", e.startup) + (Optional("tool_timeout_sec", e.tool) + Enabled(e)),
                 startup + (tool + enabled));
    assert Pairs(e) == strings + (startup + (tool + enabled));
  }

  lemma PairsDiffer(e: Entry)
    ensures forall i, j :: 0 <= i < j < |Pairs(e)| ==> Pairs(e)[i].0 != Pairs(e)[j].0
  {
    assert |"url"| == 3 && |"bearer_token_env_var"| == 20 && |"startup_timeout_sec"| == 19 && |"tool_timeout_sec"| == 16 && |"enabled"| == 7;
  }

  lemma LinesAssign(e: Entry, k: nat)
    requires PrintableTimeouts(e) && k < |Pairs(e)|
    ensures Assigns(KeysOf(e)[k], Pairs(e)[k].0, Pairs(e)[k].1)
  {
    KeysOfArePairs(e);
    PairsAreFit(e, k);
    KeyLineReads(Pairs(e)[k].0, Pairs(e)[k].1);
  }

  /** A key line's name is what its pair says, so each key is assigned once. */
  lemma PairHolds(e: Entry, k: nat)
    requires PrintableTimeouts(e) && k < |Pairs(e)|
    ensures Holds(KeysOf(e), Pairs(e)[k].0, Pairs(e)[k].1)
  {
    KeysOfArePairs(e);
    PairsDiffer(e);
    LinesAssign(e, k);
    forall j | 0 <= j < |KeysOf(e)| && ParseKeyName(KeysOf(e)[j]) == Some(Pairs(e)[k].0) ensures j == k {
      LinesAssign(e, j);
    }
  }

  lemma KeyIsAbsent(e: Entry, key: string)
    requires PrintableTimeouts(e) && forall k :: 0 <= k < |Pairs(e)| ==> Pairs(e)[k].0 != key
    ensures HoldsNothing(KeysOf(e), key)
  {
    KeysOfArePairs(e);
    forall j | 0 <= j < |KeysOf(e)| ensures ParseKeyName(KeysOf(e)[j]) != Some(key) { LinesAssign(e, j); }
  }

  /**
   The rendered entry is a table header, then lines that assign each key once. Read back they
   give the address, the token's variable, the timeouts if there are any, and whether it is
   enabled. The name is read back by LCTK exactly when it holds no control character.
   */
  lemma EntryReadsBack(e: Entry)
    requires PrintableTimeouts(e)
    ensures var lines := RenderEntry(e);
            |lines| > 1 && (ParseTableHeader(lines[0]) == Some([SERVERS, e.name]) <==> NoControl(e.name))
    ensures var keys := RenderEntry(e)[1..];
            && HoldsString(keys, "url", e.url) && HoldsString(keys, "bearer_token_env_var", e.tokenVar)
            && (if e.startup.Some? then Holds(keys, "startup_timeout_sec", e.startup.value) else HoldsNothing(keys, "startup_timeout_sec"))
            && (if e.tool.Some? then Holds(keys, "tool_timeout_sec", e.tool.value) else HoldsNothing(keys, "tool_timeout_sec"))
            && Holds(keys, "enabled", if e.enabled then "true" else "false")
  {
    EntryIsHeaderAndKeys(e);
    HeaderRoundTrip(e.name);
    assert RenderEntry(e)[1..] == KeysOf(e);
    KeysOfArePairs(e);
    StringsRead(e);
    TimeoutsRead(e);
  }

  lemma StringsRead(e: Entry)
    requires PrintableTimeouts(e)
    ensures HoldsString(KeysOf(e), "url", e.url) && HoldsString(KeysOf(e), "bearer_token_env_var", e.tokenVar)
    ensures Holds(KeysOf(e), "enabled", if e.enabled then "true" else "false")
  {
    PairHolds(e, 0);
    PairHolds(e, 1);
    PairHolds(e, |Pairs(e)| - 1);
    StringRoundTrip(e.url);
    StringRoundTrip(e.tokenVar);
  }

  predicate HasPair(e: Entry, key: string, value: string, k: nat) { k < |Pairs(e)| && Pairs(e)[k] == (key, value) }

  lemma StartupPair(e: Entry)
    ensures e.startup.Some? ==> HasPair(e, "startup_timeout_sec", e.startup.value, 2)
    ensures e.startup.None? ==> forall k :: 0 <= k < |Pairs(e)| ==> Pairs(e)[k].0 != "startup_timeout_sec"
  {
    KeyLengths();
  }

  lemma ToolPair(e: Entry)
    ensures e.tool.Some? ==> |Pairs(e)| >= 2 && HasPair(e, "tool_timeout_sec", e.tool.value, |Pairs(e)| - 2)
    ensures e.tool.None? ==> forall k :: 0 <= k < |Pairs(e)| ==> Pairs(e)[k].0 != "tool_timeout_sec"
  {
    KeyLengths();
  }

  lemma OptionalReads(e: Entry, key: string, value: Option<string>, k: nat)
    requires PrintableTimeouts(e)
    requires value.Some? ==> HasPair(e, key, value.value, k)
    requires value.None? ==> forall i :: 0 <= i < |Pairs(e)| ==> Pairs(e)[i].0 != key
    ensures if value.Some? then Holds(KeysOf(e), key, value.value) else HoldsNothing(KeysOf(e), key)
  {
    if value.Some? { PairHolds(e, k); } else { KeyIsAbsent(e, key); }
  }

  lemma TimeoutsRead(e: Entry)
    requires PrintableTimeouts(e)
    ensures if e.startup.Some? then Holds(KeysOf(e), "startup_timeout_sec", e.startup.value) else HoldsNothing(KeysOf(e), "startup_timeout_sec")
    ensures if e.tool.Some? then Holds(KeysOf(e), "tool_timeout_sec", e.tool.value) else HoldsNothing(KeysOf(e), "tool_timeout_sec")
  {
    StartupPair(e);
    ToolPair(e);
    OptionalReads(e, "startup_timeout_sec", e.startup, 2);
    OptionalReads(e, "tool_timeout_sec", e.tool, if e.tool.Some? then |Pairs(e)| - 2 else 0);
  }

  lemma KeyLengths()
    ensures |"url"| == 3 && |"bearer_token_env_var"| == 20 && |"startup_timeout_sec"| == 19 && |"tool_timeout_sec"| == 16 && |"enabled"| == 7
  {
  }
}
