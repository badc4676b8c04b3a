/**
 Printing and reading TOML keys and strings (internal/codexconfig/entry.go:91-134 and
 merge.go:212-301; TOML v1.0.0, sections "Keys" and "String").
 */
module Toml {
  import opened Text

  // ---------------------------------------------------------------- printing

  predicate IsControl(c: char) { c < ' ' || c == '\U{007F}' }

  const DIGITS := "0123456789ABCDEF"

  /** fmt.Fprintf("%04X") of a character below 0x80. */
  function Hex4(c: char): (s: string)
    requires c < '\U{0080}'
    ensures |s| == 4
  {
    "00" + [DIGITS[c as int / 16]] + [DIGITS[c as int % 16]]
  }

  function Escape(c: char): (s: string)
    ensures s != ""
  {
    if c == '"' then "\\\""
    else if c == '\\' then "\\\\"
    else if c == '\n' then "\\n"
    else if c == '\r' then "\\r"
    else if c == '\t' then "\\t"
    else if IsControl(c) then "\\u" + Hex4(c)
    else [c]
  }

  function EscapeAll(s: string): string {
    if s == "" then "" else Escape(s[0]) + EscapeAll(s[1..])
  }

  function TomlString(s: string): string { "\"" + EscapeAll(s) + "\"" }

  predicate IsBare(c: char) {
    c == '_' || c == '-' || 'a' <= c <= 'z' || 'A' <= c <= 'Z' || '0' <= c <= '9'
  }

  function TomlKey(s: string): string {
    if s != "" && (forall i :: 0 <= i < |s| ==> IsBare(s[i])) then s else TomlString(s)
  }

  method RenderString(s: string) returns (r: string)
    ensures r == TomlString(s)
  {
    r := "\"";
    for i := 0 to |s|
      invariant r + EscapeAll(s[i..]) == "\"" + EscapeAll(s)
    {
      assert s[i..][1..] == s[i + 1..];
      r := r + Escape(s[i]);
    }
    r := r + "\"";
  }

  // ---------------------------------------------------------------- reading a key path

  /** The scan state of splitKeyPath; `quote` is the delimiter a quoted part began with. */
  datatype Scan = Scan(segments: seq<string>, current: string, quote: Option<char>, escaped: bool, quoted: bool)

  const FIRST := Scan([], "", None, false, false)

  function Flush(s: Scan): Option<Scan> {
    var text := if s.quoted then s.current else TrimSpace(s.current);
    if !s.quoted && text == "" then None
    else Some(s.(segments := s.segments + [text], current := "", quoted := false))
  }

  function ScanRune(s: Scan, r: char): Option<Scan> {
    if s.escaped then Some(s.(current := s.current + [r], escaped := false))
    else if s.quote == Some('"') && r == '\\' then Some(s.(escaped := true))
    else if s.quote == Some(r) then Some(s.(quote := None))
    else if s.quote.Some? then Some(s.(current := s.current + [r]))
    else if r == '"' || r == '\'' then Some(s.(quote := Some(r), quoted := true))
    else if r == '.' then Flush(s)
    else Some(s.(current := s.current + [r]))
  }

  function ScanAll(raw: string, s: Scan): Option<Scan> {
    if raw == "" then Some(s)
    else
      match ScanRune(s, raw[0])
      case None => None
      case Some(next) => ScanAll(raw[1..], next)
  }

  function Finish(s: Scan): Option<seq<string>> {
    if s.quote.Some? || s.escaped then None
    else match Flush(s) case None => None case Some(done) => Some(done.segments)
  }

  function SplitKeyPath(raw: string): Option<seq<string>> {
    match ScanAll(raw, FIRST) case None => None case Some(s) => Finish(s)
  }

  method SplitKey(raw: string) returns (path: Option<seq<string>>)
    ensures path == SplitKeyPath(raw)
  {
    var segments: seq<string>, current: string := [], "";
    var quote: Option<char>, escaped, quoted := None, false, false;
    for i := 0 to |raw|
      invariant ScanAll(raw, FIRST) == ScanAll(raw[i..], Scan(segments, current, quote, escaped, quoted))
    {
      assert raw[i..][1..] == raw[i + 1..];
      var r := raw[i];
      if escaped {
        current := current + [r];
        escaped := false;
      } else if quote == Some('"') && r == '\\' {
        escaped := true;
      } else if quote == Some(r) {
        quote := None;
      } else if quote.Some? {
        current := current + [r];
      } else if r == '"' || r == '\'' {
        quote := Some(r);
        quoted := true;
      } else if r == '.' {
        var text := if quoted then current else TrimSpace(current);
        if !quoted && text == "" {
          return None;
        }
        segments, current, quoted := segments + [text], "", false;
      } else {
        current := current + [r];
      }
    }
    if quote.Some? || escaped {
      return None;
    }
    var text := if quoted then current else TrimSpace(current);
    if !quoted && text == "" {
      return None;
    }
    return Some(segments + [text]);
  }

  function ParseTableHeader(line: string): Option<seq<string>> {
    var trimmed := TrimSpace(line);
    var end := LastIndex(trimmed, ']');
    if !HasPrefix(trimmed, "[") || HasPrefix(trimmed, "[[") || end <= 0 then None
    else SplitKeyPath(trimmed[1..end])
  }

  function ParseKeyName(line: string): Option<string> {
    var trimmed := TrimSpace(line);
    var equals := Index(trimmed, '=');
    if trimmed == "" || HasPrefix(trimmed, "#") || equals <= 0 then None
    else
      match SplitKeyPath(trimmed[..equals])
      case None => None
      case Some(path) => if path == [] then None else Some(path[0])
  }

  // ---------------------------------------------------------------- key round trip

  /** What the scanner makes of an escaped character: the escape without its backslash. */
  function Kept(c: char): string {
    if c == '"' || c == '\\' || !IsControl(c) then [c]
    else Escape(c)[1..]
  }

  function KeptAll(s: string): string {
    if s == "" then "" else Kept(s[0]) + KeptAll(s[1..])
  }

  predicate NoControl(s: string) { forall i :: 0 <= i < |s| ==> !IsControl(s[i]) }

  lemma {:induction false} ScanConcat(a: string, b: string, s: Scan)
    ensures ScanAll(a + b, s) == match ScanAll(a, s) case None => None case Some(mid) => ScanAll(b, mid)
  {
    if a == "" {
      assert a + b == b;
    } else {
      assert (a + b)[1..] == a[1..] + b;
      match ScanRune(s, a[0])
      case None =>
      case Some(next) => ScanConcat(a[1..], b, next);
    }
  }

  function InQuotes(segments: seq<string>, current: string): Scan {
    Scan(segments, current, Some('"'), false, true)
  }

  lemma ScanPlain(segments: seq<string>, current: string, text: string)
    requires forall i :: 0 <= i < |text| ==> text[i] != '"' && text[i] != '\\'
    ensures ScanAll(text, InQuotes(segments, current)) == Some(InQuotes(segments, current + text))
    decreases |text|
  {
    if text == "" {
      assert current + text == current;
    } else {
      ScanPlain(segments, current + [text[0]], text[1..]);
      assert current + [text[0]] + text[1..] == current + text;
    }
  }

  lemma HexIsPlain(c: char)
    requires c < '\U{0080}'
    ensures forall i :: 0 <= i < 4 ==> '0' <= Hex4(c)[i] <= '9' || 'A' <= Hex4(c)[i] <= 'F'
  {
    assert forall i :: 0 <= i < 16 ==> '0' <= DIGITS[i] <= '9' || 'A' <= DIGITS[i] <= 'F';
  }

  lemma ScanEscape(segments: seq<string>, current: string, c: char)
    ensures ScanAll(Escape(c), InQuotes(segments, current)) == Some(InQuotes(segments, current + Kept(c)))
  {
    var e, s := Escape(c), InQuotes(segments, current);
    if c == '"' || c == '\\' || IsControl(c) {
      assert e[0] == '\\';
      var escaped := s.(escaped := true);
      assert ScanAll(e, s) == ScanAll(e[1..], escaped);
      var next := InQuotes(segments, current + [e[1]]);
      assert ScanAll(e[1..], escaped) == ScanAll(e[2..], next) by { assert e[1..][1..] == e[2..]; }
      if IsControl(c) { HexIsPlain(c); }
      ScanPlain(segments, current + [e[1]], e[2..]);
      assert current + [e[1]] + e[2..] == current + e[1..];
      assert c == '"' || c == '\\' ==> e[1..] == [c];
    } else {
      ScanPlain(segments, current, e);
    }
  }

  lemma {:induction false} ScanEscapeAll(segments: seq<string>, current: string, name: string)
    ensures ScanAll(EscapeAll(name), InQuotes(segments, current)) == Some(InQuotes(segments, current + KeptAll(name)))
    decreases |name|
  {
    if name == "" {
      assert current + KeptAll(name) == current;
    } else {
      ScanEscapeAll(segments, current + Kept(name[0]), name[1..]);
      ScanEscapeThen(segments, current, name[0], EscapeAll(name[1..]));
      Rejoin(current, Kept(name[0]), KeptAll(name[1..]));
    }
  }

  lemma Rejoin(a: string, b: string, c: string)
    ensures (a + b) + c == a + (b + c)
  {
  }

  lemma ScanEscapeThen(segments: seq<string>, current: string, c: char, rest: string)
    ensures ScanAll(Escape(c) + rest, InQuotes(segments, current)) == ScanAll(rest, InQuotes(segments, current + Kept(c)))
  {
    ScanEscape(segments, current, c);
    ScanConcat(Escape(c), rest, InQuotes(segments, current));
  }

  function Open(segments: seq<string>, current: string): Scan {
    Scan(segments, current, None, false, false)
  }

  lemma {:induction false} ScanBare(segments: seq<string>, current: string, text: string)
    requires forall i :: 0 <= i < |text| ==> IsBare(text[i])
    ensures ScanAll(text, Open(segments, current)) == Some(Open(segments, current + text))
    decreases |text|
  {
    if text == "" {
      assert current + text == current;
    } else {
      assert ScanRune(Open(segments, current), text[0]) == Some(Open(segments, current + [text[0]]));
      ScanBare(segments, current + [text[0]], text[1..]);
      assert current + [text[0]] + text[1..] == current + text;
    }
  }

  lemma BareIsTrimmed(text: string)
    requires text != "" && forall i :: 0 <= i < |text| ==> IsBare(text[i])
    ensures TrimSpace(text) == text
  {
    TrimmedIsFixed(text);
  }

  lemma ScanOne(c: char, s: Scan)
    ensures ScanAll([c], s) == ScanRune(s, c)
  {
    assert [c][1..] == "";
  }

  predicate IsBareKey(name: string) { name != "" && forall i :: 0 <= i < |name| ==> IsBare(name[i]) }

  lemma FlushBare(segments: seq<string>, text: string)
    requires IsBareKey(text)
    ensures Flush(Open(segments, text)) == Some(Open(segments + [text], ""))
  {
    BareIsTrimmed(text);
  }

  lemma ScanDot(text: string)
    requires IsBareKey(text)
    ensures ScanAll(".", Open([], text)) == Some(Open([text], ""))
  {
    ScanOne('.', Open([], text));
    FlushBare([], text);
    assert [] + [text] == [text];
  }

  /** A bare segment followed by a dot. */
  lemma ScanSegment(text: string)
    requires IsBareKey(text)
    ensures ScanAll(text + ".", FIRST) == Some(Open([text], ""))
  {
    ScanBare([], "", text);
    assert "" + text == text;
    ScanDot(text);
    ScanConcat(text, ".", FIRST);
  }

  lemma ScanBareKey(segments: seq<string>, name: string)
    requires IsBareKey(name)
    ensures ScanAll(TomlKey(name), Open(segments, "")) == Some(Open(segments, name))
    ensures Finish(Open(segments, name)) == Some(segments + [name])
  {
    ScanBare(segments, "", name);
    assert "" + name == name;
    FlushBare(segments, name);
  }

  lemma ScanQuotedKey(segments: seq<string>, name: string)
    ensures ScanAll(TomlString(name), Open(segments, "")) == Some(Scan(segments, KeptAll(name), None, false, true))
  {
    var body := EscapeAll(name) + "\"";
    assert TomlString(name) == "\"" + body;
    ScanConcat("\"", body, Open(segments, ""));
    ScanOne('"', Open(segments, ""));
    ScanConcat(EscapeAll(name), "\"", InQuotes(segments, ""));
    ScanEscapeAll(segments, "", name);
    assert "" + KeptAll(name) == KeptAll(name);
    ScanOne('"', InQuotes(segments, KeptAll(name)));
  }

  /** A printed key scans to the name, control characters excepted. */
  lemma ScanKey(segments: seq<string>, name: string)
    ensures ScanAll(TomlKey(name), Open(segments, "")).Some?
    ensures Finish(ScanAll(TomlKey(name), Open(segments, "")).value) == Some(segments + [KeptAll(name)])
  {
    if IsBareKey(name) {
      ScanBareKey(segments, name);
      BareIsKept(name);
    } else {
      ScanQuotedKey(segments, name);
    }
  }

  lemma {:induction false} KeptIsSame(name: string)
    ensures NoControl(name) ==> KeptAll(name) == name
    ensures !NoControl(name) ==> KeptAll(name) != name
  {
    if name != "" {
      KeptIsSame(name[1..]);
      assert name == [name[0]] + name[1..];
      if IsControl(name[0]) {
        assert KeptAll(name)[0] == Escape(name[0])[1] != name[0];
      } else {
        assert Kept(name[0]) == [name[0]];
        assert KeptAll(name)[1..] == KeptAll(name[1..]);
        if NoControl(name[1..]) { assert forall i :: 0 < i < |name| ==> name[i] == name[1..][i - 1]; }
      }
    }
  }

  lemma BareIsKept(name: string)
    requires IsBareKey(name)
    ensures KeptAll(name) == name
  {
    KeptIsSame(name);
  }

  const SERVERS := "mcp_servers"

  /** The header line Render prints. */
  function HeaderLine(name: string): string { "[" + SERVERS + "." + TomlKey(name) + "]" }

  lemma KeyPathParses(name: string)
    ensures SplitKeyPath(SERVERS + "." + TomlKey(name)) == Some([SERVERS, KeptAll(name)])
  {
    ScanSegment(SERVERS);
    ScanConcat(SERVERS + ".", TomlKey(name), FIRST);
    ScanKey([SERVERS], name);
    assert [SERVERS] + [KeptAll(name)] == [SERVERS, KeptAll(name)];
  }

  /** A trimmed line between brackets, whose inside does not open a second bracket, is split as a key path. */
  lemma BracketsAreStripped(path: string)
    requires path != "" && path[0] != '['
    ensures ParseTableHeader("[" + path + "]") == SplitKeyPath(path)
  {
    var line := "[" + path + "]";
    TrimmedIsFixed(line);
    assert line[0] == '[' && line[1] == path[0] && line[|line| - 1] == ']';
    assert LastIndex(line, ']') == |line| - 1;
    assert line[1..|line| - 1] == path;
    assert !HasPrefix(line, "[[") by { assert "[["[1] == '['; }
  }

  lemma HeaderParses(name: string)
    ensures ParseTableHeader(HeaderLine(name)) == Some([SERVERS, KeptAll(name)])
  {
    var path := SERVERS + "." + TomlKey(name);
    assert path[0] == 'm';
    assert HeaderLine(name) == "[" + path + "]";
    BracketsAreStripped(path);
    KeyPathParses(name);
  }

  /**
   Printing then parsing a table header recovers its path exactly when the name has no
   control character: quotes, backslashes, dots, brackets, spaces and the empty name all
   survive, while the scanner keeps the letter of an escape such as \n literally.
   */
  lemma HeaderRoundTrip(name: string)
    ensures ParseTableHeader(HeaderLine(name)) == Some([SERVERS, name]) <==> NoControl(name)
  {
    HeaderParses(name);
    KeptIsSame(name);
    assert [SERVERS, KeptAll(name)][1] == KeptAll(name);
  }

  // ---------------------------------------------------------------- string round trip

  function HexValue(c: char): Option<nat> {
    if '0' <= c <= '9' then Some(c as nat - '0' as nat)
    else if 'A' <= c <= 'F' then Some(c as nat - 'A' as nat + 10)
    else if 'a' <= c <= 'f' then Some(c as nat - 'a' as nat + 10)
    else None
  }

  /** The character a four-digit escape names; surrogates are not scalar values. */
  function UnicodeEscape(digits: string): Option<char>
    requires |digits| == 4
  {
    match (HexValue(digits[0]), HexValue(digits[1]), HexValue(digits[2]), HexValue(digits[3]))
    case (Some(a), Some(b), Some(c), Some(d)) =>
      var n := ((a * 16 + b) * 16 + c) * 16 + d;
      if 0 <= n < 0xD800 || 0xE000 <= n < 0x1_0000 then Some(n as char) else None
    case _ => None
  }

  /** What a basic string may not hold unescaped: U+0000 to U+0008, U+000A to U+001F, U+007F. */
  predicate Forbidden(c: char) { c <= '\U{0008}' || '\U{000A}' <= c <= '\U{001F}' || c == '\U{007F}' }

  /**
   The body of a basic string after its opening quote, up to and including the closing one
   (TOML v1.0.0, "String"). Control characters other than tab must be escaped.
   */
  function ReadBody(s: string): Option<string> {
    if s == "" then None
    else if s[0] == '"' then (if |s| == 1 then Some("") else None)
    else if s[0] == '\\' then
      if |s| < 2 then None
      else if s[1] == 'u' then
        if |s| < 6 then None
        else Prepend(UnicodeEscape(s[2..6]), ReadBody(s[6..]))
      else Prepend(SimpleEscape(s[1]), ReadBody(s[2..]))
    else if Forbidden(s[0]) then None
    else Prepend(Some(s[0]), ReadBody(s[1..]))
  }

  function SimpleEscape(c: char): Option<char> {
    if c == 'b' then Some('\U{0008}')
    else if c == 't' then Some('\t')
    else if c == 'n' then Some('\n')
    else if c == 'f' then Some('\U{000C}')
    else if c == 'r' then Some('\r')
    else if c == '"' then Some('"')
    else if c == '\\' then Some('\\')
    else None
  }

  function Prepend(c: Option<char>, rest: Option<string>): Option<string> {
    if c.Some? && rest.Some? then Some([c.value] + rest.value) else None
  }

  function ReadString(s: string): Option<string> {
    if s == "" || s[0] != '"' then None else ReadBody(s[1..])
  }

  lemma HexRoundTrip(c: char)
    requires IsControl(c)
    ensures UnicodeEscape(Hex4(c)) == Some(c)
  {
    var n := c as int;
    assert n == (n / 16) * 16 + n % 16;
    DigitValue(n / 16);
    DigitValue(n % 16);
  }

  lemma DigitValue(d: nat)
    requires d < 16
    ensures HexValue(DIGITS[d]) == Some(d)
  {
  }

  lemma ReadEscape(c: char, rest: string)
    ensures ReadBody(Escape(c) + rest) == Prepend(Some(c), ReadBody(rest))
  {
    var e := Escape(c);
    var s := e + rest;
    assert s[|e|..] == rest;
    if c != '\n' && c != '\r' && c != '\t' && IsControl(c) {
      HexRoundTrip(c);
      assert s[2..6] == Hex4(c);
      assert s[6..] == rest;
    }
  }

  lemma {:induction false} ReadEscapeAll(s: string)
    ensures ReadBody(EscapeAll(s) + "\"") == Some(s)
  {
    if s == "" {
      assert EscapeAll(s) + "\"" == "\"";
    } else {
      ReadEscapeAll(s[1..]);
      ReadEscape(s[0], EscapeAll(s[1..]) + "\"");
      assert EscapeAll(s) + "\"" == Escape(s[0]) + (EscapeAll(s[1..]) + "\"");
      assert s == [s[0]] + s[1..];
    }
  }

  /** Every generated string value reads back under the TOML rules, whatever it contains. */
  lemma StringRoundTrip(s: string)
    ensures ReadString(TomlString(s)) == Some(s)
  {
    ReadEscapeAll(s);
    assert TomlString(s)[1..] == EscapeAll(s) + "\"";
  }
}
