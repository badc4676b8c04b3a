/** Go's `strings` helpers that the modelled packages rely on, over `seq<char>`. */
module Text {

  datatype Option<+T> = None | Some(value: T)

  /** unicode.IsSpace: the characters strings.TrimSpace removes. */
  predicate IsSpace(c: char) {
    || '\t' <= c <= '\r' || c == ' ' || c == '\U{0085}' || c == '\U{00A0}' || c == '\U{1680}'
    || '\U{2000}' <= c <= '\U{200A}' || c == '\U{2028}' || c == '\U{2029}' || c == '\U{202F}'
    || c == '\U{205F}' || c == '\U{3000}'
  }

  /** The first index at or after `i` that holds no space. */
  function Lead(s: string, i: nat): (r: nat)
    requires i <= |s|
    ensures i <= r <= |s|
    ensures r < |s| ==> !IsSpace(s[r])
    decreases |s| - i
  {
    if i < |s| && IsSpace(s[i]) then Lead(s, i + 1) else i
  }

  /** The end of `s[low..i]` without its trailing spaces. */
  function Trail(s: string, low: nat, i: nat): (r: nat)
    requires low <= i <= |s|
    ensures low <= r <= i
    ensures r > low ==> !IsSpace(s[r - 1])
    decreases i
  {
    if i > low && IsSpace(s[i - 1]) then Trail(s, low, i - 1) else i
  }

  function TrimSpace(s: string): string {
    var a := Lead(s, 0);
    s[a..Trail(s, a, |s|)]
  }

  predicate Trimmed(s: string) {
    s != "" ==> !IsSpace(s[0]) && !IsSpace(s[|s| - 1])
  }

  /** A string with no space at either end is its own trim, and nothing else is. */
  lemma TrimmedIsFixed(s: string)
    ensures Trimmed(s) <==> TrimSpace(s) == s
  {
    if TrimSpace(s) == s && s != "" {
      var a := Lead(s, 0);
      assert |TrimSpace(s)| == Trail(s, a, |s|) - a;
    }
  }

  predicate HasPrefix(s: string, prefix: string) {
    prefix <= s
  }

  /** The last index of `c` in `s`, or -1. */
  function LastIndex(s: string, c: char): (i: int)
    ensures -1 <= i < |s|
    ensures i >= 0 ==> s[i] == c
  {
    if s == "" then -1
    else if s[|s| - 1] == c then |s| - 1
    else LastIndex(s[..|s| - 1], c)
  }

  /** The first index of `c` in `s`, or -1. */
  function Index(s: string, c: char): (i: int)
    ensures -1 <= i < |s|
    ensures i >= 0 ==> s[i] == c
    ensures forall k :: 0 <= k < (if i < 0 then |s| else i) ==> s[k] != c
  {
    if s == "" then -1
    else if s[0] == c then 0
    else
      var rest := Index(s[1..], c);
      assert forall k :: 1 <= k < |s| ==> s[k] == s[1..][k - 1];
      if rest < 0 then -1 else rest + 1
  }

  // ---------------------------------------------------------------- splitting and joining

  predicate Omits(s: string, c: char) { forall i :: 0 <= i < |s| ==> s[i] != c }

  /** strings.Split on a one-character separator: never empty. */
  function SplitOn(s: string, sep: char): (parts: seq<string>)
    ensures |parts| > 0
  {
    if s == "" then [""]
    else
      var rest := SplitOn(s[1..], sep);
      if s[0] == sep then [""] + rest else [[s[0]] + rest[0]] + rest[1..]
  }

  /** strings.Join with a one-character separator. */
  function JoinOn(parts: seq<string>, sep: char): string
    requires |parts| > 0
  {
    if |parts| == 1 then parts[0] else parts[0] + [sep] + JoinOn(parts[1..], sep)
  }

  lemma {:induction false} SplitPiece(piece: string, rest: string, sep: char)
    requires Omits(piece, sep)
    ensures SplitOn(piece + [sep] + rest, sep) == [piece] + SplitOn(rest, sep)
    decreases |piece|
  {
    var s := piece + [sep] + rest;
    if piece == "" {
      assert s == [sep] + rest && s[1..] == rest;
    } else {
      var t := piece[1..] + [sep] + rest;
      assert s[0] == piece[0] && s[1..] == t;
      SplitPiece(piece[1..], rest, sep);
      assert [s[0]] + piece[1..] == piece;
      assert SplitOn(t, sep)[0] == piece[1..] && SplitOn(t, sep)[1..] == SplitOn(rest, sep);
    }
  }

  lemma {:induction false} SplitLast(piece: string, sep: char)
    requires Omits(piece, sep)
    ensures SplitOn(piece, sep) == [piece]
    decreases |piece|
  {
    if piece != "" {
      SplitLast(piece[1..], sep);
      assert [piece[0]] + piece[1..] == piece;
      assert SplitOn(piece[1..], sep)[1..] == [];
    }
  }

  /** Splitting undoes joining, for parts that do not hold the separator. */
  lemma {:induction false} SplitJoin(parts: seq<string>, sep: char)
    requires |parts| > 0 && forall i :: 0 <= i < |parts| ==> Omits(parts[i], sep)
    ensures SplitOn(JoinOn(parts, sep), sep) == parts
    decreases |parts|
  {
    if |parts| == 1 {
      SplitLast(parts[0], sep);
    } else {
      assert forall i :: 0 <= i < |parts[1..]| ==> parts[1..][i] == parts[i + 1];
      SplitJoin(parts[1..], sep);
      SplitPiece(parts[0], JoinOn(parts[1..], sep), sep);
      assert parts == [parts[0]] + parts[1..];
    }
  }

  /** strings.TrimSuffix with a one-character suffix. */
  function TrimSuffix(s: string, c: char): string {
    if s != "" && s[|s| - 1] == c then s[..|s| - 1] else s
  }
}
