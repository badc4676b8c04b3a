/**
 The glob compiler (spikes/search-backend-evaluation/zoektadapter/adapter.go:454-517), the
 part of Go's regexp syntax its output is written in, and a direct glob matcher.

 Characters are ASCII bytes; the host separator is the slash.
 */
module Glob {
  import opened Text

  // ---------------------------------------------------------------- the compiler

  predicate Quoted(c: char) {
    c == '\\' || c == '.' || c == '+' || c == '(' || c == ')' || c == '|' || c == '{' || c == '}' || c == '^' || c == '$'
  }

  function QuoteByte(c: char): (s: string)
    ensures s != ""
  {
    if Quoted(c) then ['\\', c] else [c]
  }

  const DIRS := "(?:.*/)?"
  const ANY := ".*"
  const SEGMENT := "[^/]*"
  const ONE := "[^/]"

  /** The text written for the first piece of a glob, and how much of the glob it covers. */
  datatype Piece = Piece(text: string, size: nat)

  function FirstPiece(g: string): (p: Option<Piece>)
    requires g != ""
    ensures p.Some? ==> 0 < p.value.size <= |g|
  {
    if g[0] == '*' then
      if |g| >= 2 && g[1] == '*' then
        if |g| >= 3 && g[2] == '/' then Some(Piece(DIRS, 3)) else Some(Piece(ANY, 2))
      else Some(Piece(SEGMENT, 1))
    else if g[0] == '?' then Some(Piece(ONE, 1))
    else if g[0] == '[' then
      var end := Index(g[1..], ']');
      if end <= 0 then None else Some(Piece(ClassText(g[1..end + 1]), end + 2))
    else Some(Piece(QuoteByte(g[0]), 1))
  }

  /** What is written for a glob from some offset on, the final anchor included. */
  function Emit(g: string): Option<string>
    decreases |g|
  {
    if g == "" then Some("$")
    else
      match FirstPiece(g)
      case None => None
      case Some(p) => Prefixed(p.text, Emit(g[p.size..]))
  }

  function Prefixed(text: string, rest: Option<string>): Option<string> {
    match rest case None => None case Some(r) => Some(text + r)
  }

  function ClassText(class_: string): string
    requires class_ != ""
  {
    "[" + (if class_[0] == '!' then "^" + class_[1..] else class_) + "]"
  }

  predicate Relative(g: string) { g != "" && !HasPrefix(g, "/") && !HasPrefix(g, "../") }

  function GlobRegexp(glob: string): Option<string> {
    var g := TrimSpace(glob);
    if !Relative(g) then None else Prefixed("^", Emit(g))
  }

  /** The switch at one offset. */
  method ReadPiece(g: string, offset: nat) returns (piece: Option<Piece>)
    requires offset < |g|
    ensures piece == FirstPiece(g[offset..])
  {
    if g[offset] == '*' {
      if offset + 1 < |g| && g[offset + 1] == '*' {
        if offset + 2 < |g| && g[offset + 2] == '/' {
          return Some(Piece(DIRS, 3));
        }
        return Some(Piece(ANY, 2));
      }
      return Some(Piece(SEGMENT, 1));
    }
    if g[offset] == '?' {
      return Some(Piece(ONE, 1));
    }
    if g[offset] == '[' {
      piece := ReadClass(g, offset);
      return;
    }
    return Some(Piece(QuoteByte(g[offset]), 1));
  }

  method ReadClass(g: string, offset: nat) returns (piece: Option<Piece>)
    requires offset < |g| && g[offset] == '['
    ensures piece == FirstPiece(g[offset..])
  {
    assert g[offset..][1..] == g[offset + 1..];
    var end := Index(g[offset + 1..], ']');
    if end < 0 {
      return None;
    }
    var class_ := g[offset + 1..offset + 1 + end];
    assert class_ == g[offset..][1..end + 1];
    if class_ == "" {
      return None;
    }
    return Some(Piece(ClassText(class_), end + 2));
  }

  method CompileGlob(glob: string) returns (expression: Option<string>)
    ensures expression == GlobRegexp(glob)
  {
    var g := TrimSpace(glob);
    if !Relative(g) {
      return None;
    }
    var written := "^";
    var offset := 0;
    while offset < |g|
      invariant offset <= |g|
      invariant Prefixed(written, Emit(g[offset..])) == Prefixed("^", Emit(g))
    {
      var piece := ReadPiece(g, offset);
      if piece.None? {
        return None;
      }
      Moved(written, g[offset..], piece.value.text, piece.value.size);
      assert g[offset..][piece.value.size..] == g[offset + piece.value.size..];
      written, offset := written + piece.value.text, offset + piece.value.size;
    }
    assert g[offset..] == "";
    return Some(written + "$");
  }

  lemma Moved(written: string, rest: string, text: string, size: nat)
    requires rest != "" && size <= |rest| && FirstPiece(rest) == Some(Piece(text, size))
    ensures Prefixed(written + text, Emit(rest[size..])) == Prefixed(written, Emit(rest))
  {
    match Emit(rest[size..])
    case None =>
    case Some(r) => assert (written + text) + r == written + (text + r);
  }
}
