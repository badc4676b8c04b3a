/** The regular expressions the glob compiler writes, read back and compared with a direct matcher. */
module GlobMeaning {
  import opened Text
  import opened Glob

  // ---------------------------------------------------------------- regular expressions

  datatype Range = Range(lo: char, hi: char)

  datatype Class = Any | Just(c: char) | Among(negated: bool, ranges: seq<Range>)

  datatype Re = Eps | Set(cls: Class) | Cat(first: Re, second: Re) | Star(body: Re) | Opt(body: Re)

  predicate InRanges(ranges: seq<Range>, c: char) {
    exists i :: 0 <= i < |ranges| && ranges[i].lo <= c <= ranges[i].hi
  }

  /** `.` does not match a newline unless asked to; a negated class does. */
  predicate InClass(cls: Class, c: char) {
    match cls case Any => c != '\n' case Just(d) => c == d case Among(negated, ranges) => InRanges(ranges, c) != negated
  }

  function NotSlash(): Class { Among(true, [Range('/', '/')]) }

  lemma NotSlashIs(c: char)
    ensures InClass(NotSlash(), c) <==> c != '/'
  {
    assert NotSlash().ranges[0] == Range('/', '/');
  }

  /** The language of an expression. */
  ghost predicate In(r: Re, s: string)
    decreases r, |s|
  {
    match r
    case Eps => s == ""
    case Set(cls) => |s| == 1 && InClass(cls, s[0])
    case Cat(a, b) => exists k :: 0 <= k <= |s| && In(a, s[..k]) && In(b, s[k..])
    case Star(a) => s == "" || exists k :: 0 < k <= |s| && In(a, s[..k]) && In(r, s[k..])
    case Opt(a) => s == "" || In(a, s)
  }

  // ---------------------------------------------------------------- their syntax

  /** An expression and the text that follows it. */
  datatype Read = Read(re: Re, rest: string)

  predicate Escapable(c: char) { Quoted(c) || c == '*' || c == '?' || c == '[' || c == ']' }

  /** An operator that may not begin an atom. */
  predicate Operator(c: char) { c == '*' || c == '?' || c == '+' || c == '|' || c == '{' || c == '^' }

  datatype ReadRange = ReadRange(range: Range, rest: string)

  /** A character or a range inside a class; escapes and named classes are outside the fragment. */
  function ParseRange(s: string): (r: Option<ReadRange>)
    requires s != ""
    ensures r.Some? ==> |r.value.rest| < |s|
  {
    if s[0] == '\\' || (|s| > 2 && s[0] == '[' && s[1] == ':') then None
    else if |s| >= 3 && s[1] == '-' && s[2] != ']' then
      if s[2] == '\\' || s[2] < s[0] then None else Some(ReadRange(Range(s[0], s[2]), s[3..]))
    else Some(ReadRange(Range(s[0], s[0]), s[1..]))
  }

  datatype ReadClass = ReadClass(ranges: seq<Range>, rest: string)

  /** The ranges of a class up to its bracket, which as the first character stands for itself. */
  function ParseRanges(s: string, first: bool): (r: Option<ReadClass>)
    ensures r.Some? ==> |r.value.rest| < |s|
    decreases |s|
  {
    if s == "" then None
    else if s[0] == ']' && !first then Some(ReadClass([], s[1..]))
    else
      match ParseRange(s)
      case None => None
      case Some(one) =>
        match ParseRanges(one.rest, false)
        case None => None
        case Some(more) => Some(ReadClass([one.range] + more.ranges, more.rest))
  }

  /** One atom of the fragment: an escape, a dot, a class, a group or a literal. */
  function ParseAtom(s: string): (r: Option<Read>)
    requires s != ""
    ensures r.Some? ==> |r.value.rest| < |s|
    decreases |s|, 0
  {
    if s[0] == '\\' then
      if |s| >= 2 && Escapable(s[1]) then Some(Read(Set(Just(s[1])), s[2..])) else None
    else if s[0] == '.' then Some(Read(Set(Any), s[1..]))
    else if s[0] == '[' then
      var negated := |s| >= 2 && s[1] == '^';
      match ParseRanges(s[if negated then 2 else 1..], true)
      case None => None
      case Some(c) => Some(Read(Set(Among(negated, c.ranges)), c.rest))
    else if s[0] == '(' then
      if |s| >= 3 && s[1] == '?' && s[2] == ':' then
        match ParseSeq(s[3..])
        case None => None
        case Some(inner) =>
          if inner.rest != "" && inner.rest[0] == ')' then Some(Read(inner.re, inner.rest[1..])) else None
      else None
    else if Operator(s[0]) then None
    else Some(Read(Set(Just(s[0])), s[1..]))
  }

  function Postfix(a: Read): (r: Read)
    ensures |r.rest| <= |a.rest|
  {
    if a.rest != "" && a.rest[0] == '*' then Read(Star(a.re), a.rest[1..])
    else if a.rest != "" && a.rest[0] == '?' then Read(Opt(a.re), a.rest[1..])
    else a
  }

  /** A concatenation, up to a closing parenthesis, an anchor or the end. */
  function ParseSeq(s: string): (r: Option<Read>)
    ensures r.Some? ==> |r.value.rest| <= |s|
    decreases |s|, 1
  {
    if s == "" || s[0] == ')' || s[0] == '$' then Some(Read(Eps, s))
    else
      match ParseAtom(s)
      case None => None
      case Some(a) =>
        var p := Postfix(a);
        match ParseSeq(p.rest)
        case None => None
        case Some(tail) => Some(Read(Cat(p.re, tail.re), tail.rest))
  }

  /** An expression anchored at both ends. */
  function ParseAnchored(text: string): Option<Re> {
    if text == "" || text[0] != '^' then None
    else
      match ParseSeq(text[1..])
      case None => None
      case Some(r) => if r.rest == "$" then Some(r.re) else None
  }

  // ---------------------------------------------------------------- the direct matcher

  predicate Negated(class_: string) { class_ != "" && (class_[0] == '!' || class_[0] == '^') }

  function Body(class_: string): string { if Negated(class_) then class_[1..] else class_ }

  function Cons(range: Range, more: Option<seq<Range>>): Option<seq<Range>> {
    match more case None => None case Some(ranges) => Some([range] + ranges)
  }

  /** What a class lists: characters and ranges; None for a backslash, a named class or a range that runs backwards. */
  function Listed(body: string): Option<seq<Range>>
    decreases |body|
  {
    if body == "" then Some([])
    else if body[0] == '\\' || (|body| >= 2 && body[0] == '[' && body[1] == ':') then None
    else if |body| >= 3 && body[1] == '-' then
      if body[2] == '\\' || body[2] < body[0] then None else Cons(Range(body[0], body[2]), Listed(body[3..]))
    else Cons(Range(body[0], body[0]), Listed(body[1..]))
  }

  /** The class at the start of a glob, between its brackets. */
  function ClassOf(g: string): Option<string>
    requires g != ""
    ensures ClassOf(g).Some? ==> |ClassOf(g).value| + 2 <= |g|
  {
    var end := Index(g[1..], ']');
    if end <= 0 then None else Some(g[1..end + 1])
  }

  predicate InGlobClass(class_: string, c: char) {
    var ranges := Listed(Body(class_));
    ranges.Some? && InRanges(ranges.value, c) != Negated(class_)
  }

  /** Every class is closed, lists something after its sign, and lists it without escapes. */
  predicate PlainClasses(g: string)
    decreases |g|
  {
    if g == "" then true
    else if g[0] != '[' then PlainClasses(g[1..])
    else
      match ClassOf(g)
      case None => false
      case Some(class_) => Body(class_) != "" && Listed(Body(class_)).Some? && PlainClasses(g[|class_| + 2..])
  }

  /** Whether a path matches a glob, decided on the glob and the path alone. A class may take a slash. */
  predicate Matches(g: string, p: string)
    decreases |g|, |p|, 0
  {
    if g == "" then p == ""
    else if g[0] == '*' then
      if |g| >= 2 && g[1] == '*' then
        if |g| >= 3 && g[2] == '/' then Matches(g[3..], p) || BelowSlash(g[3..], p)
        else Matches(g[2..], p) || (p != "" && Matches(g, p[1..]))
      else Matches(g[1..], p) || (p != "" && p[0] != '/' && Matches(g, p[1..]))
    else if g[0] == '?' then p != "" && p[0] != '/' && Matches(g[1..], p[1..])
    else if g[0] == '[' then
      match ClassOf(g)
      case None => false
      case Some(class_) => p != "" && InGlobClass(class_, p[0]) && Matches(g[|class_| + 2..], p[1..])
    else p != "" && p[0] == g[0] && Matches(g[1..], p[1..])
  }

  /** The glob matches what follows some slash of the path. */
  predicate BelowSlash(g: string, p: string)
    decreases |g|, |p|, 1
  {
    p != "" && ((p[0] == '/' && Matches(g, p[1..])) || BelowSlash(g, p[1..]))
  }

  predicate NoNewline(p: string) { forall i :: 0 <= i < |p| ==> p[i] != '\n' }

  // ---------------------------------------------------------------- what the output parses to

  function ClassSet(class_: string): Class {
    var ranges := Listed(Body(class_));
    Among(Negated(class_), if ranges.Some? then ranges.value else [])
  }

  function Dirs(): Re { Opt(Cat(Star(Set(Any)), Cat(Set(Just('/')), Eps))) }

  /** The expression a glob with plain classes compiles to. */
  function Meaning(g: string): Re {
    if g == "" then Eps
    else if g[0] == '*' then
      if |g| >= 2 && g[1] == '*' then
        if |g| >= 3 && g[2] == '/' then Cat(Dirs(), Meaning(g[3..])) else Cat(Star(Set(Any)), Meaning(g[2..]))
      else Cat(Star(Set(NotSlash())), Meaning(g[1..]))
    else if g[0] == '?' then Cat(Set(NotSlash()), Meaning(g[1..]))
    else if g[0] == '[' then
      match ClassOf(g)
      case None => Eps
      case Some(class_) => Cat(Set(ClassSet(class_)), Meaning(g[|class_| + 2..]))
    else Cat(Set(Just(g[0])), Meaning(g[1..]))
  }

  /** Text that cannot be taken for an operator on what precedes it. */
  predicate Starts(s: string) { s != "" && s[0] != '*' && s[0] != '?' }

  lemma SeqStep(s: string, a: Read, tail: Read)
    requires s != "" && s[0] != ')' && s[0] != '$'
    requires ParseAtom(s) == Some(a) && ParseSeq(Postfix(a).rest) == Some(tail)
    ensures ParseSeq(s) == Some(Read(Cat(Postfix(a).re, tail.re), tail.rest))
  {
  }

  lemma ReadByte(c: char, rest: string, tail: Read)
    requires c != '*' && c != '?' && c != '['
    requires Starts(rest) && ParseSeq(rest) == Some(tail)
    ensures ParseSeq(QuoteByte(c) + rest) == Some(Read(Cat(Set(Just(c)), tail.re), tail.rest))
    ensures Starts(QuoteByte(c) + rest)
  {
    var s := QuoteByte(c) + rest;
    assert s[|QuoteByte(c)|..] == rest;
    SeqStep(s, Read(Set(Just(c)), rest), tail);
  }

  lemma ParseNotSlash(rest: string)
    ensures ParseAtom(ONE + rest) == Some(Read(Set(NotSlash()), rest))
  {
    var s := ONE + rest;
    assert s[0] == '[' && s[1] == '^' && s[2..] == "/]" + rest;
    assert ("/]" + rest)[1..] == "]" + rest && ("]" + rest)[1..] == rest;
    assert ParseRanges("]" + rest, false) == Some(ReadClass([], rest));
    assert ParseRange("/]" + rest) == Some(ReadRange(Range('/', '/'), "]" + rest));
    assert [Range('/', '/')] + [] == [Range('/', '/')];
  }

  lemma ReadOne(rest: string, tail: Read)
    requires Starts(rest) && ParseSeq(rest) == Some(tail)
    ensures ParseSeq(ONE + rest) == Some(Read(Cat(Set(NotSlash()), tail.re), tail.rest))
    ensures Starts(ONE + rest)
  {
    ParseNotSlash(rest);
    SeqStep(ONE + rest, Read(Set(NotSlash()), rest), tail);
  }

  lemma ReadSegment(rest: string, tail: Read)
    requires ParseSeq(rest) == Some(tail)
    ensures ParseSeq(SEGMENT + rest) == Some(Read(Cat(Star(Set(NotSlash())), tail.re), tail.rest))
    ensures Starts(SEGMENT + rest)
  {
    ParseNotSlash("*" + rest);
    assert SEGMENT + rest == ONE + ("*" + rest) && ("*" + rest)[1..] == rest;
    SeqStep(SEGMENT + rest, Read(Set(NotSlash()), "*" + rest), tail);
  }

  lemma Bracketed(body: string, rest: string, n: nat)
    requires n <= |body|
    ensures (body + "]" + rest)[n..] == body[n..] + "]" + rest
    ensures n < |body| ==> (body + "]" + rest)[n] == body[n]
    ensures (body + "]" + rest)[|body|] == ']'
  {
  }

  /** How much of a class body its first character or range covers. */
  function Width(body: string): nat
    requires body != ""
    ensures 0 < Width(body) <= |body|
  {
    if |body| >= 3 && body[1] == '-' then 3 else 1
  }

  lemma ParseListedOne(body: string, rest: string)
    requires body != "" && Omits(body, ']') && Listed(body).Some?
    ensures var n := Width(body);
            ParseRange(body + "]" + rest) == Some(ReadRange(Range(body[0], body[n - 1]), body[n..] + "]" + rest))
  {
    var s, n := body + "]" + rest, Width(body);
    Bracketed(body, rest, 0);
    Bracketed(body, rest, 1);
    Bracketed(body, rest, n);
    if |body| >= 2 { Bracketed(body, rest, 2); }
    assert s[0] == body[0];
  }

  lemma ListedOne(body: string)
    requires body != "" && Listed(body).Some?
    ensures var n := Width(body); Listed(body) == Cons(Range(body[0], body[n - 1]), Listed(body[n..]))
  {
  }

  /** A plain class body reads, up to its bracket, as what it lists. */
  lemma {:induction false} ParseListed(body: string, rest: string, first: bool)
    requires Omits(body, ']') && Listed(body).Some? && (first ==> body != "")
    ensures ParseRanges(body + "]" + rest, first) == Some(ReadClass(Listed(body).value, rest))
    decreases |body|
  {
    var s := body + "]" + rest;
    if body == "" {
      assert s[1..] == rest;
    } else {
      var n := Width(body);
      ParseListedOne(body, rest);
      ListedOne(body);
      ParseListed(body[n..], rest, false);
      assert s[0] != ']';
    }
  }

  lemma ParseClass(class_: string, rest: string)
    requires Omits(class_, ']') && Body(class_) != "" && Listed(Body(class_)).Some?
    ensures ParseAtom(ClassText(class_) + rest) == Some(Read(Set(ClassSet(class_)), rest))
  {
    var s, body := ClassText(class_) + rest, Body(class_);
    ParseListed(body, rest, true);
    if Negated(class_) {
      assert s[1] == '^' && s[2..] == body + "]" + rest;
    } else {
      assert s[1] == class_[0] && s[1..] == body + "]" + rest;
    }
  }

  lemma ReadClassText(class_: string, rest: string, tail: Read)
    requires Omits(class_, ']') && Body(class_) != "" && Listed(Body(class_)).Some?
    requires Starts(rest) && ParseSeq(rest) == Some(tail)
    ensures ParseSeq(ClassText(class_) + rest) == Some(Read(Cat(Set(ClassSet(class_)), tail.re), tail.rest))
    ensures Starts(ClassText(class_) + rest)
  {
    ParseClass(class_, rest);
    SeqStep(ClassText(class_) + rest, Read(Set(ClassSet(class_)), rest), tail);
  }

  lemma ReadAny(rest: string, tail: Read)
    requires ParseSeq(rest) == Some(tail)
    ensures ParseSeq(ANY + rest) == Some(Read(Cat(Star(Set(Any)), tail.re), tail.rest))
    ensures Starts(ANY + rest)
  {
    var s := ANY + rest;
    assert s[0] == '.' && s[1..] == "*" + rest && ("*" + rest)[1..] == rest;
    SeqStep(s, Read(Set(Any), "*" + rest), tail);
  }

  lemma ReadGroup(rest: string)
    ensures ParseSeq(".*/)" + rest) == Some(Read(Cat(Star(Set(Any)), Cat(Set(Just('/')), Eps)), ")" + rest))
  {
    var close := ")" + rest;
    assert ParseSeq(close) == Some(Read(Eps, close));
    assert Starts(close) && QuoteByte('/') == "/";
    ReadByte('/', close, Read(Eps, close));
    ReadAny("/" + close, Read(Cat(Set(Just('/')), Eps), close));
    assert ".*/)" + rest == ANY + ("/" + close);
  }

  lemma ReadDirs(rest: string, tail: Read)
    requires ParseSeq(rest) == Some(tail)
    ensures ParseSeq(DIRS + rest) == Some(Read(Cat(Dirs(), tail.re), tail.rest))
    ensures Starts(DIRS + rest)
  {
    var s := DIRS + rest;
    ReadGroup("?" + rest);
    assert s[0] == '(' && s[1] == '?' && s[2] == ':' && s[3..] == ".*/)" + ("?" + rest);
    assert (")" + ("?" + rest))[1..] == "?" + rest && ("?" + rest)[1..] == rest;
    SeqStep(s, Read(Cat(Star(Set(Any)), Cat(Set(Just('/')), Eps)), "?" + rest), tail);
  }

  /** A class of a glob ends at its first bracket. */
  lemma ClassIsFirst(g: string)
    requires g != "" && g[0] == '[' && ClassOf(g).Some?
    ensures var class_ := ClassOf(g).value;
            Omits(class_, ']') && FirstPiece(g) == Some(Piece(ClassText(class_), |class_| + 2))
  {
    var class_ := ClassOf(g).value;
    assert forall i :: 0 <= i < |class_| ==> class_[i] == g[1..][i];
  }

  /** How much of a glob its first piece covers. */
  function Step(g: string): nat
    requires g != ""
    ensures Step(g) <= |g|
  {
    if g[0] == '[' then (if ClassOf(g).Some? then |ClassOf(g).value| + 2 else 1)
    else if g[0] != '*' || |g| < 2 || g[1] != '*' then 1 else if |g| >= 3 && g[2] == '/' then 3 else 2
  }

  lemma PlainStep(g: string)
    requires g != "" && PlainClasses(g)
    ensures PlainClasses(g[Step(g)..])
    ensures g[0] == '[' ==> ClassOf(g).Some? && Body(ClassOf(g).value) != "" && Listed(Body(ClassOf(g).value)).Some?
  {
    if Step(g) > 1 && g[0] == '*' {
      assert g[1..][1..] == g[2..];
      if Step(g) == 3 { assert g[2..][1..] == g[3..]; }
    }
  }

  /** The text written for a glob with plain classes parses, up to the final anchor, to its meaning. */
  lemma {:induction false} EmitParses(g: string)
    requires PlainClasses(g)
    ensures Emit(g).Some? && Starts(Emit(g).value) && ParseSeq(Emit(g).value) == Some(Read(Meaning(g), "$"))
    decreases |g|
  {
    if g != "" {
      var n := Step(g);
      var rest := g[n..];
      PlainStep(g);
      EmitParses(rest);
      var text, tail := Emit(rest).value, Read(Meaning(rest), "$");
      if g[0] == '*' {
        if n == 3 { ReadDirs(text, tail); } else if n == 2 { ReadAny(text, tail); } else { ReadSegment(text, tail); }
      } else if g[0] == '?' {
        ReadOne(text, tail);
      } else if g[0] == '[' {
        ClassIsFirst(g);
        ReadClassText(ClassOf(g).value, text, tail);
      } else {
        ReadByte(g[0], text, tail);
      }
    }
  }

  // ---------------------------------------------------------------- what the meaning accepts

  predicate AllIn(cls: Class, s: string) { forall i :: 0 <= i < |s| ==> InClass(cls, s[i]) }

  lemma {:induction false} StarOfClass(cls: Class, s: string)
    ensures In(Star(Set(cls)), s) <==> AllIn(cls, s)
    decreases |s|
  {
    if In(Star(Set(cls)), s) && s != "" {
      var k :| 0 < k <= |s| && In(Set(cls), s[..k]) && In(Star(Set(cls)), s[k..]);
      StarOfClass(cls, s[k..]);
      assert forall i :: k <= i < |s| ==> s[i] == s[k..][i - k];
    }
    if AllIn(cls, s) && s != "" {
      StarOfClass(cls, s[1..]);
      assert In(Set(cls), s[..1]);
    }
  }

  lemma CatSplits(a: Re, b: Re, p: string, k: nat)
    requires k <= |p| && In(a, p[..k]) && In(b, p[k..])
    ensures In(Cat(a, b), p)
  {
  }

  lemma CatSet(cls: Class, r: Re, p: string)
    ensures In(Cat(Set(cls), r), p) <==> p != "" && InClass(cls, p[0]) && In(r, p[1..])
  {
    if p != "" && InClass(cls, p[0]) && In(r, p[1..]) { CatSplits(Set(cls), r, p, 1); }
  }

  /** The starred class takes the first `k` characters and `r` the rest. */
  ghost predicate Takes(cls: Class, r: Re, p: string, k: int) {
    0 <= k <= |p| && AllIn(cls, p[..k]) && In(r, p[k..])
  }

  lemma CatStarTakes(cls: Class, r: Re, p: string)
    ensures In(Cat(Star(Set(cls)), r), p) <==> exists k :: Takes(cls, r, p, k)
  {
    if In(Cat(Star(Set(cls)), r), p) {
      var k :| 0 <= k <= |p| && In(Star(Set(cls)), p[..k]) && In(r, p[k..]);
      StarOfClass(cls, p[..k]);
      assert Takes(cls, r, p, k);
    }
    if exists k :: Takes(cls, r, p, k) {
      var k :| Takes(cls, r, p, k);
      StarOfClass(cls, p[..k]);
      CatSplits(Star(Set(cls)), r, p, k);
    }
  }

  lemma AllInCons(cls: Class, c: char, s: string)
    ensures AllIn(cls, [c] + s) <==> InClass(cls, c) && AllIn(cls, s)
  {
    var t := [c] + s;
    assert t[0] == c && forall i :: 0 <= i < |s| ==> s[i] == t[i + 1];
  }

  lemma TakesOne(cls: Class, r: Re, p: string, k: int)
    requires 0 < k
    ensures Takes(cls, r, p, k) <==> p != "" && InClass(cls, p[0]) && Takes(cls, r, p[1..], k - 1)
  {
    if p != "" && k <= |p| {
      var q := p[1..];
      assert q[k - 1..] == p[k..];
      assert p[..k] == [p[0]] + q[..k - 1];
      AllInCons(cls, p[0], q[..k - 1]);
    }
  }

  lemma TakesNone(cls: Class, r: Re, p: string)
    ensures Takes(cls, r, p, 0) <==> In(r, p)
  {
    assert p[0..] == p;
  }

  /** A starred class before `r` stops, or takes one more character. */
  lemma CatStar(cls: Class, r: Re, p: string)
    ensures In(Cat(Star(Set(cls)), r), p)
        <==> In(r, p) || (p != "" && InClass(cls, p[0]) && In(Cat(Star(Set(cls)), r), p[1..]))
  {
    CatStarTakes(cls, r, p);
    if p != "" { CatStarTakes(cls, r, p[1..]); }
    TakesNone(cls, r, p);
    TakesStep(cls, r, p);
  }

  lemma TakesStep(cls: Class, r: Re, p: string)
    ensures (exists k :: Takes(cls, r, p, k))
        <==> Takes(cls, r, p, 0) || (p != "" && InClass(cls, p[0]) && exists k :: Takes(cls, r, p[1..], k))
  {
    if exists k :: Takes(cls, r, p, k) {
      var k :| Takes(cls, r, p, k);
      if k > 0 { TakesOne(cls, r, p, k); }
    }
    if p != "" && InClass(cls, p[0]) && exists k :: Takes(cls, r, p[1..], k) {
      var k :| Takes(cls, r, p[1..], k);
      TakesOne(cls, r, p, k + 1);
    }
  }

  /** `.*` followed by a slash is any newline-free text ending in a slash. */
  lemma DirText(s: string)
    requires NoNewline(s)
    ensures In(Cat(Star(Set(Any)), Cat(Set(Just('/')), Eps)), s) <==> s != "" && s[|s| - 1] == '/'
  {
    var slash := Cat(Set(Just('/')), Eps);
    if In(Cat(Star(Set(Any)), slash), s) {
      var k :| 0 <= k <= |s| && In(Star(Set(Any)), s[..k]) && In(slash, s[k..]);
      CatSet(Just('/'), Eps, s[k..]);
    }
    if s != "" && s[|s| - 1] == '/' {
      var n := |s| - 1;
      StarOfClass(Any, s[..n]);
      assert s[n..] == "/" && s[n..][1..] == "";
      CatSet(Just('/'), Eps, s[n..]);
      CatSplits(Star(Set(Any)), slash, s, n);
    }
  }

  /** The glob's rest follows a slash at `k`. */
  ghost predicate After(r: Re, p: string, k: int) {
    0 < k <= |p| && p[k - 1] == '/' && In(r, p[k..])
  }

  lemma PrefixHasNoNewline(p: string, k: nat)
    requires k <= |p| && NoNewline(p)
    ensures NoNewline(p[..k]) && NoNewline(p[k..])
  {
  }

  lemma DirsText(s: string)
    requires NoNewline(s)
    ensures In(Dirs(), s) <==> s == "" || s[|s| - 1] == '/'
  {
    DirText(s);
  }

  lemma DirsSplit(r: Re, p: string)
    requires NoNewline(p) && In(Cat(Dirs(), r), p)
    ensures In(r, p) || exists k :: After(r, p, k)
  {
    var k :| 0 <= k <= |p| && In(Dirs(), p[..k]) && In(r, p[k..]);
    PrefixHasNoNewline(p, k);
    DirsText(p[..k]);
    assert if k == 0 then p[k..] == p else After(r, p, k);
  }

  lemma DirsJoin(r: Re, p: string, k: nat)
    requires NoNewline(p) && k <= |p| && In(r, p[k..]) && (k == 0 || p[k - 1] == '/')
    ensures In(Cat(Dirs(), r), p)
  {
    PrefixHasNoNewline(p, k);
    DirsText(p[..k]);
    CatSplits(Dirs(), r, p, k);
  }

  lemma CatDirs(r: Re, p: string)
    requires NoNewline(p)
    ensures In(Cat(Dirs(), r), p) <==> In(r, p) || exists k :: After(r, p, k)
  {
    if In(Cat(Dirs(), r), p) { DirsSplit(r, p); }
    assert p[0..] == p;
    if In(r, p) { DirsJoin(r, p, 0); }
    if exists k :: After(r, p, k) {
      var k :| After(r, p, k);
      DirsJoin(r, p, k);
    }
  }

  lemma {:induction false} BelowSlashAfter(g: string, r: Re, p: string)
    requires forall k :: 0 < k <= |p| ==> (Matches(g, p[k..]) <==> In(r, p[k..]))
    ensures BelowSlash(g, p) <==> exists k :: After(r, p, k)
    decreases |p|
  {
    if p != "" {
      var q := p[1..];
      forall k | 0 < k <= |q| ensures Matches(g, q[k..]) <==> In(r, q[k..]) { assert q[k..] == p[k + 1..]; }
      BelowSlashAfter(g, r, q);
      if p[0] == '/' && Matches(g, p[1..]) { assert After(r, p, 1); }
      if exists k :: After(r, q, k) {
        var k :| After(r, q, k);
        assert q[k..] == p[k + 1..] && After(r, p, k + 1);
      }
      if exists k :: After(r, p, k) {
        var k :| After(r, p, k);
        if k > 1 { assert q[k - 1..] == p[k..] && After(r, q, k - 1); }
      }
    }
  }

  /** The compiled expression accepts exactly what the glob matches. */
  lemma {:induction false} MeaningMatches(g: string, p: string)
    requires NoNewline(p) && PlainClasses(g)
    ensures In(Meaning(g), p) <==> Matches(g, p)
    decreases |g|, |p|
  {
    if g != "" { PlainStep(g); }
    if g == "" {
    } else if g[0] == '*' && |g| >= 2 && g[1] == '*' && |g| >= 3 && g[2] == '/' {
      MeaningMatches(g[3..], p);
      forall k | 0 < k <= |p| ensures Matches(g[3..], p[k..]) <==> In(Meaning(g[3..]), p[k..]) {
        MeaningMatches(g[3..], p[k..]);
      }
      BelowSlashAfter(g[3..], Meaning(g[3..]), p);
      CatDirs(Meaning(g[3..]), p);
    } else if g[0] == '*' && |g| >= 2 && g[1] == '*' {
      MeaningMatches(g[2..], p);
      CatStar(Any, Meaning(g[2..]), p);
      if p != "" { MeaningMatches(g, p[1..]); }
    } else if g[0] == '*' {
      MeaningMatches(g[1..], p);
      CatStar(NotSlash(), Meaning(g[1..]), p);
      if p != "" { NotSlashIs(p[0]); MeaningMatches(g, p[1..]); }
    } else if g[0] == '[' {
      var class_ := ClassOf(g).value;
      CatSet(ClassSet(class_), Meaning(g[|class_| + 2..]), p);
      if p != "" { MeaningMatches(g[|class_| + 2..], p[1..]); }
    } else {
      CatSet(if g[0] == '?' then NotSlash() else Just(g[0]), Meaning(g[1..]), p);
      if p != "" { NotSlashIs(p[0]); MeaningMatches(g[1..], p[1..]); }
    }
  }

  /**
   Every project-relative glob with plain classes compiles to a well-formed anchored
   expression that accepts a newline-free path exactly when the direct matcher does.
   */
  lemma GlobMeansMatch(glob: string, path: string)
    requires Relative(TrimSpace(glob)) && PlainClasses(TrimSpace(glob)) && NoNewline(path)
    ensures GlobRegexp(glob).Some? && ParseAnchored(GlobRegexp(glob).value).Some?
    ensures In(ParseAnchored(GlobRegexp(glob).value).value, path) <==> Matches(TrimSpace(glob), path)
  {
    var g := TrimSpace(glob);
    EmitParses(g);
    assert ("^" + Emit(g).value)[1..] == Emit(g).value;
    MeaningMatches(g, path);
  }

  // ---------------------------------------------------------------- what is refused

  /** Every class that is opened holds something and is closed. */
  predicate ClassesClosed(g: string)
    decreases |g|
  {
    if g == "" then true
    else if g[0] != '[' then ClassesClosed(g[1..])
    else
      var end := Index(g[1..], ']');
      end > 0 && ClassesClosed(g[end + 2..])
  }

  lemma {:induction false} EmitsExactly(g: string)
    ensures Emit(g).Some? <==> ClassesClosed(g)
    decreases |g|
  {
    if g != "" {
      match FirstPiece(g)
      case None =>
      case Some(p) =>
        EmitsExactly(g[p.size..]);
        if p.size > 1 && g[0] == '*' {
          assert g[1..][1..] == g[2..];
          assert ClassesClosed(g) == ClassesClosed(g[1..]) == ClassesClosed(g[2..]);
          if p.size == 3 {
            assert g[2..][1..] == g[3..];
            assert ClassesClosed(g[2..]) == ClassesClosed(g[3..]);
          }
        }
    }
  }

  /** A glob is refused exactly when it is blank, starts at the root or above the project, or has a class that is empty or not closed. */
  lemma RefusedExactly(glob: string)
    ensures var g := TrimSpace(glob);
            GlobRegexp(glob).None? <==>
              g == "" || g[0] == '/' || (|g| >= 3 && g[0] == '.' && g[1] == '.' && g[2] == '/') || !ClassesClosed(g)
  {
    var g := TrimSpace(glob);
    EmitsExactly(g);
    assert "../"[0] == '.' && "../"[1] == '.' && "../"[2] == '/' && "/"[0] == '/';
  }
}
