/** What git prints is what the parser recovers (git-status, "Porcelain Format Version 2"; internal/gitinfo/parse.go:26-145). */
module GitRoundTrip {
  import opened Text
  import opened GitStatus

  // ---------------------------------------------------------------- printing

  /** The seven letters of the format's table. */
  datatype Letter = Modified | TypeChanged | Added | Deleted | Renaming | Copied | UpdatedUnmerged

  /** What happened to a path in the index and in the working tree; printed with a dot for nothing. */
  datatype States = States(index: Option<Letter>, tree: Option<Letter>)

  function LetterCode(l: Option<Letter>): char {
    match l
    case None => '.'
    case Some(Modified) => 'M'
    case Some(TypeChanged) => 'T'
    case Some(Added) => 'A'
    case Some(Deleted) => 'D'
    case Some(Renaming) => 'R'
    case Some(Copied) => 'C'
    case Some(UpdatedUnmerged) => 'U'
  }

  function Code(s: States): string { [LetterCode(s.index), LetterCode(s.tree)] }

  /** `details` are the fixed fields after the status code: six, seven with a rename's score, eight of a conflict. */
  datatype Record =
    | Ordinary(states: States, details: seq<string>, path: string)
    | Renamed(states: States, details: seq<string>, path: string, origin: string)
    | Unmerged(states: States, details: seq<string>, path: string)
    | Untracked(path: string)
    | Ignored(path: string)

  datatype Counts = Counts(ahead: nat, behind: nat)

  datatype Headers = Headers(oid: Option<string>, head: Option<string>, upstream: Option<string>, counts: Option<Counts>)

  function Digits(n: nat): (s: string)
    ensures s != "" && forall i :: 0 <= i < |s| ==> IsDigit(s[i])
  {
    var last := [(n % 10 + '0' as int) as char];
    if n < 10 then last else Digits(n / 10) + last
  }

  /** Fields, each followed by a space. */
  function Spaced(fields: seq<string>): string {
    if |fields| == 0 then "" else fields[0] + " " + Spaced(fields[1..])
  }

  function RecordFields(r: Record): seq<string> {
    match r
    case Ordinary(states, details, path) => [Spaced(["1", Code(states)] + details) + path]
    case Renamed(states, details, path, origin) => [Spaced(["2", Code(states)] + details) + path, origin]
    case Unmerged(states, details, path) => [Spaced(["u", Code(states)] + details) + path]
    case Untracked(path) => ["? " + path]
    case Ignored(path) => ["! " + path]
  }

  function RecordsFields(rs: seq<Record>): seq<string> {
    if |rs| == 0 then [] else RecordFields(rs[0]) + RecordsFields(rs[1..])
  }

  function HeaderFields(h: Headers): seq<string> {
    ["# branch.oid " + (if h.oid.Some? then h.oid.value else "(initial)"),
     "# branch.head " + (if h.head.Some? then h.head.value else "(detached)")]
    + (if h.upstream.Some? then ["# branch.upstream " + h.upstream.value] else [])
    + (if h.counts.Some? then ["# branch.ab +" + Digits(h.counts.value.ahead) + " -" + Digits(h.counts.value.behind)]
       else [])
  }

  /** Every field followed by NUL. */
  function Terminated(fields: seq<string>): string {
    if |fields| == 0 then "" else fields[0] + [NUL] + Terminated(fields[1..])
  }

  function Print(h: Headers, rs: seq<Record>): string { Terminated(HeaderFields(h) + RecordsFields(rs)) }

  // ---------------------------------------------------------------- what can be printed

  predicate Word(s: string) { Omits(s, ' ') && Omits(s, NUL) }

  predicate Words(fields: seq<string>) { forall i :: 0 <= i < |fields| ==> Word(fields[i]) }

  predicate Printable(r: Record) {
    && r.path != "" && Omits(r.path, NUL)
    && (!r.Untracked? && !r.Ignored? ==> Words(r.details))
    && (r.Ordinary? || r.Renamed? ==> r.states.index.Some? || r.states.tree.Some?)
    && (r.Ordinary? ==> |r.details| == 6)
    && (r.Renamed? ==> |r.details| == 7 && Omits(r.origin, NUL))
    && (r.Unmerged? ==> |r.details| == 8)
  }

  predicate AllPrintable(rs: seq<Record>) { forall i :: 0 <= i < |rs| ==> Printable(rs[i]) }

  predicate PrintableHeaders(h: Headers) {
    && (h.oid.Some? ==> h.oid.value != "(initial)" && Omits(h.oid.value, NUL))
    && (h.head.Some? ==> h.head.value != "(detached)" && Omits(h.head.value, NUL))
    && (h.upstream.Some? ==> Omits(h.upstream.value, NUL))
    && (h.counts.Some? ==> h.counts.value.ahead <= MAX_INT && h.counts.value.behind <= MAX_INT)
  }

  // ---------------------------------------------------------------- what is to be recovered

  function NameOf(l: Letter): string {
    match l
    case Modified => "modified"
    case TypeChanged => "type-changed"
    case Added => "added"
    case Deleted => "deleted"
    case Renaming => "renamed"
    case Copied => "copied"
    case UpdatedUnmerged => "conflicted"
  }

  /**
   A change as its two states tell it: named after what the index says, or what the working
   tree says when the index says nothing; staged when the index says something, and changed in
   the working tree when that does.
   */
  function Told(s: States, path: string, origin: string): Change
    requires s.index.Some? || s.tree.Some?
  {
    Change(path, origin, NameOf(if s.index.Some? then s.index.value else s.tree.value), s.index.Some?, s.tree.Some?)
  }

  function Conflicted(path: string): Change { Change(path, "", "conflicted", false, true) }

  /** The change a record describes; an ignored file is none. */
  function Described(r: Record): Option<Change>
    requires Printable(r)
  {
    match r
    case Ordinary(states, _, path) => Some(Told(states, path, ""))
    case Renamed(states, _, path, origin) => Some(Told(states, path, origin))
    case Unmerged(_, _, path) => Some(Conflicted(path))
    case Untracked(path) => Some(Change(path, "", "untracked", false, true))
    case Ignored(_) => None
  }

  /**
   The change the parser takes it for. A conflict has ten fields before its path
   (parse.go:23) and is read as if it had eleven (parse.go:62): it is lost when its path has
   no space, and what follows the first space is taken for the path when it has one.
   */
  function Understood(r: Record): Option<Change>
    requires Printable(r)
  {
    if !r.Unmerged? then Described(r)
    else
      var space := Index(r.path, ' ');
      if space < 0 || r.path[space + 1..] == "" then None else Some(Conflicted(r.path[space + 1..]))
  }

  function Present(c: Option<Change>): seq<Change> { if c.Some? then [c.value] else [] }

  function AllDescribed(rs: seq<Record>): seq<Change>
    requires AllPrintable(rs)
  {
    assert |rs| > 0 ==> Printable(rs[0]);
    if |rs| == 0 then [] else Present(Described(rs[0])) + AllDescribed(rs[1..])
  }

  function AllUnderstood(rs: seq<Record>): seq<Change>
    requires AllPrintable(rs)
  {
    assert |rs| > 0 ==> Printable(rs[0]);
    if |rs| == 0 then [] else Present(Understood(rs[0])) + AllUnderstood(rs[1..])
  }

  function Kept(n: nat, maxFiles: int): nat { if maxFiles < 0 then 0 else if n < maxFiles then n else maxFiles }

  function WithHeaders(h: Headers): Report {
    EMPTY.(commit := if h.oid.Some? then h.oid.value else "",
           unborn := h.oid.None?,
           branch := if h.head.Some? then h.head.value else "",
           detached := h.head.None?,
           upstream := if h.upstream.Some? then h.upstream.value else "",
           ahead := if h.counts.Some? then h.counts.value.ahead else 0,
           behind := if h.counts.Some? then h.counts.value.behind else 0)
  }

  /**
   The report of some headers and changes: every change counted, the first ones kept,
   truncation reported when some were not, dirty when there is any, and the short form of a
   commit long enough to have one.
   */
  function Reported(h: Headers, cs: seq<Change>, maxFiles: int): Report {
    WithHeaders(h).(
      total := |cs|, changed := cs[..Kept(|cs|, maxFiles)], truncated := |cs| > Kept(|cs|, maxFiles),
      dirty := cs != [],
      short := if h.oid.Some? && |h.oid.value| >= 7 then h.oid.value[..7] else "")
  }

  // ---------------------------------------------------------------- fields

  lemma {:induction false} TerminatedIsJoined(fields: seq<string>)
    requires |fields| > 0
    ensures Terminated(fields) == JoinOn(fields, NUL) + [NUL]
    decreases |fields|
  {
    if |fields| == 1 {
      assert Terminated(fields[1..]) == "";
    } else {
      TerminatedIsJoined(fields[1..]);
      assert fields[0] + [NUL] + (JoinOn(fields[1..], NUL) + [NUL]) == JoinOn(fields, NUL) + [NUL];
    }
  }

  lemma FieldsAreRead(fields: seq<string>)
    requires |fields| > 0 && forall i :: 0 <= i < |fields| ==> Omits(fields[i], NUL)
    ensures SplitOn(TrimSuffix(Terminated(fields), NUL), NUL) == fields
  {
    TerminatedIsJoined(fields);
    var text := JoinOn(fields, NUL);
    assert (text + [NUL])[..|text|] == text;
    SplitJoin(fields, NUL);
  }

  lemma IndexAt(word: string, rest: string, c: char)
    requires Omits(word, c)
    ensures Index(word + [c] + rest, c) == |word|
  {
    var s := word + [c] + rest;
    assert s[|word|] == c;
    assert forall i :: 0 <= i < |word| ==> s[i] == word[i];
  }

  lemma SplitFirst(word: string, rest: string, n: nat)
    requires Omits(word, ' ') && n > 1
    ensures SplitN(word + " " + rest, n) == [word] + SplitN(rest, n - 1)
  {
    var s := word + [' '] + rest;
    IndexAt(word, rest, ' ');
    assert s[..|word|] == word && s[|word| + 1..] == rest;
  }

  lemma SpacedCons(fields: seq<string>, path: string)
    requires |fields| > 0
    ensures Spaced(fields) + path == fields[0] + " " + (Spaced(fields[1..]) + path)
  {
  }

  lemma ConsConcat<T>(a: seq<T>, b: seq<T>)
    requires |a| > 0
    ensures [a[0]] + (a[1..] + b) == a + b
  {
  }

  lemma SplitOneMore(word: string, fields: seq<string>, path: string, n: nat, parts: seq<string>)
    requires Omits(word, ' ') && n > 0 && SplitN(Spaced(fields) + path, n) == parts
    ensures SplitN(word + " " + (Spaced(fields) + path), n + 1) == [word] + parts
  {
    SplitFirst(word, Spaced(fields) + path, n + 1);
  }

  lemma SplitStep(fields: seq<string>, path: string, n: nat, last: seq<string>)
    requires |fields| > 0 && Omits(fields[0], ' ') && n > 0
    requires SplitN(Spaced(fields[1..]) + path, n) == fields[1..] + last
    ensures SplitN(Spaced(fields) + path, n + 1) == fields + last
  {
    SpacedCons(fields, path);
    SplitOneMore(fields[0], fields[1..], path, n, fields[1..] + last);
    ConsConcat(fields, last);
  }

  lemma SpacedNothing(path: string)
    ensures Spaced([]) + path == path
  {
  }

  lemma {:induction false} SplitSpaced(fields: seq<string>, path: string, n: nat)
    requires Words(fields) && n > 0
    ensures SplitN(Spaced(fields) + path, |fields| + n) == fields + SplitN(path, n)
    decreases |fields|
  {
    if |fields| > 0 {
      assert Word(fields[0]);
      SplitSpaced(fields[1..], path, n);
      SplitStep(fields, path, |fields| - 1 + n, SplitN(path, n));
    } else {
      SpacedNothing(path);
      assert fields == [] && [] + SplitN(path, n) == SplitN(path, n);
    }
  }

  lemma ReadFixed(fields: seq<string>, path: string)
    requires Words(fields) && |fields| > 1 && path != ""
    ensures ParseFixed(Spaced(fields) + path, |fields|) == Some(ChangeFromXY(fields[1]).(path := path))
  {
    SplitSpaced(fields, path, 1);
    assert SplitN(path, 1) == [path];
  }

  lemma KindAndCode(kind: string, xy: string, details: seq<string>)
    requires Word(kind) && Word(xy) && Words(details)
    ensures var fields := [kind, xy] + details;
            Words(fields) && |fields| == |details| + 2 && fields[0] == kind && fields[1] == xy
  {
  }

  lemma SpacedStarts(kind: string, fields: seq<string>, path: string)
    requires |fields| > 0 && fields[0] == kind
    ensures HasPrefix(Spaced(fields) + path, kind + " ")
  {
  }

  lemma TakeOrdinary(s: Report, text: string, c: Change, rest: seq<string>, maxFiles: int)
    requires HasPrefix(text, "1 ") && ParseOrdinary(text) == Some(c)
    ensures Take(s, [text] + rest, maxFiles) == (Add(s, c, maxFiles), 1)
  {
    assert text[0] == '1';
  }

  lemma TakeRenamed(s: Report, text: string, c: Change, origin: string, rest: seq<string>, maxFiles: int)
    requires HasPrefix(text, "2 ") && ParseRename(text) == Some(c)
    ensures Take(s, [text, origin] + rest, maxFiles) == (Add(s, c.(origin := origin), maxFiles), 2)
  {
    assert text[0] == '2';
  }

  lemma TakeUntracked(s: Report, path: string, rest: seq<string>, maxFiles: int)
    ensures Take(s, ["? " + path] + rest, maxFiles)
         == (Add(s, Change(path, "", "untracked", false, true), maxFiles), 1)
  {
    var text := "? " + path;
    assert text[0] == '?' && text[2..] == path;
  }

  lemma OrdinaryIsTaken(s: Report, xy: string, details: seq<string>, path: string, rest: seq<string>, maxFiles: int)
    requires Word(xy) && Words(details) && |details| == 6 && path != ""
    ensures Take(s, [Spaced(["1", xy] + details) + path] + rest, maxFiles)
         == (Add(s, ChangeFromXY(xy).(path := path), maxFiles), 1)
  {
    KindAndCode("1", xy, details);
    ReadFixed(["1", xy] + details, path);
    SpacedStarts("1", ["1", xy] + details, path);
    TakeOrdinary(s, Spaced(["1", xy] + details) + path, ChangeFromXY(xy).(path := path), rest, maxFiles);
  }

  lemma RenamedIsTaken(s: Report, xy: string, details: seq<string>, path: string, origin: string, rest: seq<string>, maxFiles: int)
    requires Word(xy) && Words(details) && |details| == 7 && path != ""
    ensures Take(s, [Spaced(["2", xy] + details) + path, origin] + rest, maxFiles)
         == (Add(s, ChangeFromXY(xy).(path := path, origin := origin), maxFiles), 2)
  {
    KindAndCode("2", xy, details);
    ReadFixed(["2", xy] + details, path);
    SpacedStarts("2", ["2", xy] + details, path);
    TakeRenamed(s, Spaced(["2", xy] + details) + path, ChangeFromXY(xy).(path := path), origin, rest, maxFiles);
  }

  lemma SplitTwo(path: string)
    ensures var space := Index(path, ' ');
            SplitN(path, 2) == if space < 0 then [path] else [path[..space], path[space + 1..]]
  {
    var space := Index(path, ' ');
    if space >= 0 { assert SplitN(path[space + 1..], 1) == [path[space + 1..]]; }
  }

  lemma LastFieldIs(record: string, fields: seq<string>, tail: seq<string>)
    requires |fields| == 10 && SplitN(record, 12) == fields + tail
    ensures |tail| < 2 ==> LastField(record, 11) == None
    ensures |tail| == 2 ==> LastField(record, 11) == if tail[1] == "" then None else Some(tail[1])
  {
    if |tail| == 2 { assert (fields + tail)[11] == tail[1]; }
  }

  lemma ReadConflict(fields: seq<string>, path: string)
    requires |fields| == 10 && Words(fields)
    ensures var space := Index(path, ' ');
            LastField(Spaced(fields) + path, 11)
            == if space < 0 || path[space + 1..] == "" then None else Some(path[space + 1..])
  {
    SplitSpaced(fields, path, 2);
    SplitTwo(path);
    LastFieldIs(Spaced(fields) + path, fields, SplitN(path, 2));
  }

  lemma TakeConflict(s: Report, text: string, rest: seq<string>, maxFiles: int)
    requires HasPrefix(text, "u ")
    ensures Take(s, [text] + rest, maxFiles) == (AddSome(s, Conflict(text), maxFiles), 1)
  {
    assert text[0] == 'u';
  }

  lemma ConflictIsTaken(s: Report, r: Record, rest: seq<string>, maxFiles: int)
    requires Printable(r) && r.Unmerged?
    ensures Take(s, RecordFields(r) + rest, maxFiles) == (AddSome(s, Understood(r), maxFiles), 1)
  {
    var xy, details, path := Code(r.states), r.details, r.path;
    CodeTells(r.states);
    KindAndCode("u", xy, details);
    ReadConflict(["u", xy] + details, path);
    SpacedStarts("u", ["u", xy] + details, path);
    TakeConflict(s, Spaced(["u", xy] + details) + path, rest, maxFiles);
  }

  lemma TakeIgnored(s: Report, path: string, rest: seq<string>, maxFiles: int)
    ensures Take(s, ["! " + path] + rest, maxFiles) == (s, 1)
  {
    var text := "! " + path;
    assert text[0] == '!';
  }

  /** The two letters of a code are read as what they stand for, the index first. */
  lemma CodeTells(s: States)
    ensures Word(Code(s)) && |Code(s)| == 2
    ensures s.index.Some? || s.tree.Some? ==>
              forall path, origin :: ChangeFromXY(Code(s)).(path := path, origin := origin) == Told(s, path, origin)
  {
  }

  /** One record is read whole, a rename together with its origin, whatever that holds. */
  lemma TakeRecord(s: Report, r: Record, rest: seq<string>, maxFiles: int)
    requires Printable(r)
    ensures Take(s, RecordFields(r) + rest, maxFiles) == (AddSome(s, Understood(r), maxFiles), |RecordFields(r)|)
  {
    match r
    case Ordinary(states, details, path) =>
      CodeTells(states);
      OrdinaryIsTaken(s, Code(states), details, path, rest, maxFiles);
    case Renamed(states, details, path, origin) =>
      CodeTells(states);
      RenamedIsTaken(s, Code(states), details, path, origin, rest, maxFiles);
    case Unmerged(_, _, _) => ConflictIsTaken(s, r, rest, maxFiles);
    case Untracked(path) => TakeUntracked(s, path, rest, maxFiles);
    case Ignored(path) => TakeIgnored(s, path, rest, maxFiles);
  }

  /** Adding each change in turn. */
  function AddAll(s: Report, cs: seq<Change>, maxFiles: int): Report
    decreases |cs|
  {
    if |cs| == 0 then s else AddAll(Add(s, cs[0], maxFiles), cs[1..], maxFiles)
  }

  lemma AddPresent(s: Report, c: Option<Change>, cs: seq<Change>, maxFiles: int)
    ensures AddAll(s, Present(c) + cs, maxFiles) == AddAll(AddSome(s, c, maxFiles), cs, maxFiles)
  {
    if c.Some? { assert (Present(c) + cs)[1..] == cs; } else { assert Present(c) + cs == cs; }
  }

  lemma {:induction false} WalkRecords(s: Report, rs: seq<Record>, maxFiles: int)
    requires AllPrintable(rs)
    ensures Walk(s, RecordsFields(rs), maxFiles) == AddAll(s, AllUnderstood(rs), maxFiles)
    decreases |rs|
  {
    if |rs| > 0 {
      assert Printable(rs[0]);
      var rest := RecordsFields(rs[1..]);
      TakeRecord(s, rs[0], rest, maxFiles);
      assert (RecordFields(rs[0]) + rest)[|RecordFields(rs[0])|..] == rest;
      WalkRecords(AddSome(s, Understood(rs[0]), maxFiles), rs[1..], maxFiles);
      AddPresent(s, Understood(rs[0]), AllUnderstood(rs[1..]), maxFiles);
    }
  }

  // ---------------------------------------------------------------- what is dropped

  /** A record that ends before its path, or has an empty one, is no change. */
  lemma ShortRecordsAreDropped(fields: seq<string>, last: string, fixed: nat)
    requires Words(fields) && fixed > 1 && Omits(last, ' ')
    requires |fields| < fixed || (|fields| == fixed && last == "")
    ensures ParseFixed(Spaced(fields) + last, fixed) == None
  {
    SplitSpaced(fields, last, fixed + 1 - |fields|);
    assert Index(last, ' ') < 0;
    assert SplitN(last, fixed + 1 - |fields|) == [last];
  }

  /** A letter outside the table is read as a modification. */
  lemma OtherLettersAreModifications(c: char)
    requires c !in "MTADRCU"
    ensures StateOf(c) == "modified"
  {
    assert "MTADRCU"[1] == 'T' && "MTADRCU"[2] == 'A' && "MTADRCU"[3] == 'D' && "MTADRCU"[4] == 'R' && "MTADRCU"[5] == 'C' && "MTADRCU"[6] == 'U';
  }

  /** A header of another name, or without a value, changes nothing. */
  lemma OtherHeadersAreIgnored(s: Report, key: string, value: string)
    requires Omits(key, ' ')
    requires key != "branch.oid" && key != "branch.head" && key != "branch.upstream" && key != "branch.ab"
    ensures Header(s, key + " " + value) == s && Header(s, key) == s
  {
    IndexAt(key, value, ' ');
    assert (key + " " + value)[..|key|] == key;
  }

  // ---------------------------------------------------------------- headers

  lemma {:induction false} DecimalOfDigits(n: nat)
    ensures Decimal(Digits(n)) == n
  {
    var last := [(n % 10 + '0' as int) as char];
    if n < 10 {
      assert last[..0] == "";
    } else {
      DecimalOfDigits(n / 10);
      assert (Digits(n / 10) + last)[..|Digits(n)| - 1] == Digits(n / 10);
    }
  }

  /** A count reads back up to the largest integer, and is nothing past it. */
  lemma CountIsRead(sign: char, n: nat)
    requires sign == '+' || sign == '-'
    ensures SignedCount([sign] + Digits(n)) == if n <= MAX_INT then n else 0
  {
    var s := [sign] + Digits(n);
    assert s[1..] == Digits(n);
    assert IsDigit(Digits(n)[0]);
    assert TrimSigns(s) == Digits(n);
    DecimalOfDigits(n);
  }

  lemma DigitsAreWords(n: nat)
    ensures Word(Digits(n))
  {
    assert forall i :: 0 <= i < |Digits(n)| ==> IsDigit(Digits(n)[i]);
  }

  lemma HeaderIsCut(key: string, value: string)
    requires Omits(key, ' ')
    ensures Index(key + " " + value, ' ') == |key|
    ensures (key + " " + value)[..|key|] == key && (key + " " + value)[|key| + 1..] == value
  {
    IndexAt(key, value, ' ');
  }

  lemma TakeHeader(s: Report, header: string, rest: seq<string>, maxFiles: int)
    ensures Take(s, ["# " + header] + rest, maxFiles) == (Header(s, header), 1)
  {
    var text := "# " + header;
    assert text[0] == '#' && text[2..] == header;
  }

  lemma WalkOne(s: Report, field: string, after: Report, rest: seq<string>, maxFiles: int)
    requires Take(s, [field] + rest, maxFiles) == (after, 1)
    ensures Walk(s, [field] + rest, maxFiles) == Walk(after, rest, maxFiles)
  {
    assert ([field] + rest)[1..] == rest;
  }

  lemma WalkOid(s: Report, oid: Option<string>, rest: seq<string>, maxFiles: int)
    requires oid.Some? ==> oid.value != "(initial)"
    ensures Walk(s, ["# branch.oid " + (if oid.Some? then oid.value else "(initial)")] + rest, maxFiles)
         == Walk(if oid.Some? then s.(commit := oid.value) else s.(unborn := true), rest, maxFiles)
  {
    var value := if oid.Some? then oid.value else "(initial)";
    HeaderIsCut("branch.oid", value);
    assert "# branch.oid " + value == "# " + ("branch.oid" + " " + value);
    TakeHeader(s, "branch.oid" + " " + value, rest, maxFiles);
    WalkOne(s, "# branch.oid " + value, Header(s, "branch.oid" + " " + value), rest, maxFiles);
  }

  lemma WalkHead(s: Report, head: Option<string>, rest: seq<string>, maxFiles: int)
    requires head.Some? ==> head.value != "(detached)"
    ensures Walk(s, ["# branch.head " + (if head.Some? then head.value else "(detached)")] + rest, maxFiles)
         == Walk(if head.Some? then s.(branch := head.value) else s.(detached := true), rest, maxFiles)
  {
    var value := if head.Some? then head.value else "(detached)";
    HeaderIsCut("branch.head", value);
    assert "# branch.head " + value == "# " + ("branch.head" + " " + value);
    assert "branch.head" != "branch.oid";
    TakeHeader(s, "branch.head" + " " + value, rest, maxFiles);
    WalkOne(s, "# branch.head " + value, Header(s, "branch.head" + " " + value), rest, maxFiles);
  }

  lemma UpstreamHeader(s: Report, name: string)
    ensures Header(s, "branch.upstream" + " " + name) == s.(upstream := name)
  {
    HeaderIsCut("branch.upstream", name);
    assert |"branch.upstream"| != |"branch.oid"| && |"branch.upstream"| != |"branch.head"|;
  }

  lemma WalkUpstream(s: Report, upstream: Option<string>, rest: seq<string>, maxFiles: int)
    ensures Walk(s, (if upstream.Some? then ["# branch.upstream " + upstream.value] else []) + rest, maxFiles)
         == Walk(if upstream.Some? then s.(upstream := upstream.value) else s, rest, maxFiles)
  {
    match upstream
    case None =>
      assert [] + rest == rest;
    case Some(name) =>
      UpstreamHeader(s, name);
      assert "# branch.upstream " + name == "# " + ("branch.upstream" + " " + name);
      TakeHeader(s, "branch.upstream" + " " + name, rest, maxFiles);
      WalkOne(s, "# branch.upstream " + name, s.(upstream := name), rest, maxFiles);
  }

  lemma CountsDispatch(s: Report, first: string, second: string)
    requires Omits(first, ' ')
    ensures Header(s, "branch.ab" + " " + (first + " " + second))
         == s.(ahead := SignedCount(first), behind := SignedCount(second))
  {
    HeaderIsCut("branch.ab", first + " " + second);
    assert |"branch.ab"| == 9 && |"branch.oid"| == 10 && |"branch.head"| == 11 && |"branch.upstream"| == 15;
    HeaderIsCut(first, second);
  }

  lemma SignedIsWord(sign: char, n: nat)
    requires sign != ' '
    ensures Omits([sign] + Digits(n), ' ')
  {
    DigitsAreWords(n);
  }

  lemma CountsHeader(s: Report, ahead: nat, behind: nat)
    requires ahead <= MAX_INT && behind <= MAX_INT
    ensures Header(s, "branch.ab" + " " + ("+" + Digits(ahead) + " -" + Digits(behind)))
         == s.(ahead := ahead, behind := behind)
  {
    assert "+" + Digits(ahead) + " -" + Digits(behind) == ("+" + Digits(ahead)) + " " + ("-" + Digits(behind));
    SignedIsWord('+', ahead);
    CountsDispatch(s, "+" + Digits(ahead), "-" + Digits(behind));
    CountIsRead('+', ahead);
    CountIsRead('-', behind);
  }

  lemma WalkCounts(s: Report, counts: Option<Counts>, rest: seq<string>, maxFiles: int)
    requires counts.Some? ==> counts.value.ahead <= MAX_INT && counts.value.behind <= MAX_INT
    ensures Walk(s, (if counts.Some? then ["# branch.ab +" + Digits(counts.value.ahead) + " -" + Digits(counts.value.behind)]
                     else []) + rest, maxFiles)
         == Walk(if counts.Some? then s.(ahead := counts.value.ahead, behind := counts.value.behind) else s, rest, maxFiles)
  {
    match counts
    case None =>
      assert [] + rest == rest;
    case Some(c) =>
      var value := "+" + Digits(c.ahead) + " -" + Digits(c.behind);
      CountsHeader(s, c.ahead, c.behind);
      assert "# branch.ab +" + Digits(c.ahead) + " -" + Digits(c.behind) == "# " + ("branch.ab" + " " + value);
      TakeHeader(s, "branch.ab" + " " + value, rest, maxFiles);
      WalkOne(s, "# " + ("branch.ab" + " " + value), s.(ahead := c.ahead, behind := c.behind), rest, maxFiles);
  }

  // ---------------------------------------------------------------- the whole status

  /** The state after the header fields. */
  lemma WalkHeaders(h: Headers, rest: seq<string>, maxFiles: int)
    requires PrintableHeaders(h)
    ensures Walk(EMPTY, HeaderFields(h) + rest, maxFiles) == Walk(WithHeaders(h), rest, maxFiles)
  {
    var oid := ["# branch.oid " + (if h.oid.Some? then h.oid.value else "(initial)")];
    var head := ["# branch.head " + (if h.head.Some? then h.head.value else "(detached)")];
    var upstream := if h.upstream.Some? then ["# branch.upstream " + h.upstream.value] else [];
    var counts := if h.counts.Some?
                  then ["# branch.ab +" + Digits(h.counts.value.ahead) + " -" + Digits(h.counts.value.behind)] else [];
    Nested(oid, head, upstream, counts, rest);
    assert HeaderFields(h) == oid + head + upstream + counts;
    var s1 := if h.oid.Some? then EMPTY.(commit := h.oid.value) else EMPTY.(unborn := true);
    var s2 := if h.head.Some? then s1.(branch := h.head.value) else s1.(detached := true);
    var s3 := if h.upstream.Some? then s2.(upstream := h.upstream.value) else s2;
    WalkOid(EMPTY, h.oid, head + (upstream + (counts + rest)), maxFiles);
    WalkHead(s1, h.head, upstream + (counts + rest), maxFiles);
    WalkUpstream(s2, h.upstream, counts + rest, maxFiles);
    WalkCounts(s3, h.counts, rest, maxFiles);
  }

  lemma Nested<T>(a: seq<T>, b: seq<T>, c: seq<T>, d: seq<T>, e: seq<T>)
    ensures a + b + c + d + e == a + (b + (c + (d + e)))
  {
  }

  predicate Pathed(cs: seq<Change>) { forall i :: 0 <= i < |cs| ==> cs[i].path != "" }

  lemma {:induction false} UnderstoodArePathed(rs: seq<Record>)
    requires AllPrintable(rs)
    ensures Pathed(AllUnderstood(rs))
  {
    if |rs| > 0 {
      assert Printable(rs[0]);
      UnderstoodArePathed(rs[1..]);
    }
  }

  /** `s` after a list of changes, of which the first `free` were kept. */
  function Grown(s: Report, cs: seq<Change>, free: nat): Report
    requires free <= |cs|
  {
    s.(total := s.total + |cs|, changed := s.changed + cs[..free], truncated := s.truncated || |cs| > free)
  }

  lemma GrownKept(s: Report, c: Change, cs: seq<Change>, free: nat)
    requires free <= |cs|
    ensures Grown(s.(total := s.total + 1, changed := s.changed + [c]), cs, free) == Grown(s, [c] + cs, free + 1)
  {
    assert ([c] + cs)[..free + 1] == [c] + cs[..free];
    assert s.changed + ([c] + cs[..free]) == (s.changed + [c]) + cs[..free];
  }

  lemma GrownDropped(s: Report, c: Change, cs: seq<Change>)
    ensures Grown(s.(total := s.total + 1, truncated := true), cs, 0) == Grown(s, [c] + cs, 0)
  {
    assert cs[..0] == ([c] + cs)[..0];
  }

  lemma AddThenGrow(s: Report, c: Change, cs: seq<Change>, maxFiles: int)
    requires c.path != ""
    ensures var next := Add(s, c, maxFiles);
            Grown(next, cs, Kept(|cs|, maxFiles - |next.changed|))
            == Grown(s, [c] + cs, Kept(|cs| + 1, maxFiles - |s.changed|))
  {
    if |s.changed| < maxFiles {
      GrownKept(s, c, cs, Kept(|cs|, maxFiles - |s.changed| - 1));
    } else {
      GrownDropped(s, c, cs);
    }
  }

  lemma {:induction false} AddedAll(s: Report, cs: seq<Change>, maxFiles: int)
    requires Pathed(cs)
    ensures AddAll(s, cs, maxFiles) == Grown(s, cs, Kept(|cs|, maxFiles - |s.changed|))
    decreases |cs|
  {
    if |cs| == 0 {
      assert s.changed + [] == s.changed;
    } else {
      AddedAll(Add(s, cs[0], maxFiles), cs[1..], maxFiles);
      AddThenGrow(s, cs[0], cs[1..], maxFiles);
      assert [cs[0]] + cs[1..] == cs;
    }
  }

  lemma HeadersOmitNul(h: Headers)
    requires PrintableHeaders(h)
    ensures forall i :: 0 <= i < |HeaderFields(h)| ==> Omits(HeaderFields(h)[i], NUL)
  {
    if h.counts.Some? {
      DigitsAreWords(h.counts.value.ahead);
      DigitsAreWords(h.counts.value.behind);
    }
  }

  lemma {:induction false} SpacedOmitsNul(fields: seq<string>)
    requires Words(fields)
    ensures Omits(Spaced(fields), NUL)
  {
    if |fields| > 0 {
      assert Word(fields[0]);
      SpacedOmitsNul(fields[1..]);
    }
  }

  lemma RecordOmitsNul(r: Record)
    requires Printable(r)
    ensures forall i :: 0 <= i < |RecordFields(r)| ==> Omits(RecordFields(r)[i], NUL)
  {
    match r
    case Ordinary(states, details, path) =>
      CodeTells(states);
      SpacedOmitsNul(["1", Code(states)] + details);
    case Renamed(states, details, path, origin) =>
      CodeTells(states);
      SpacedOmitsNul(["2", Code(states)] + details);
    case Unmerged(states, details, path) =>
      CodeTells(states);
      SpacedOmitsNul(["u", Code(states)] + details);
    case Untracked(path) =>
    case Ignored(path) =>
  }

  lemma {:induction false} RecordsOmitNul(rs: seq<Record>)
    requires AllPrintable(rs)
    ensures forall i :: 0 <= i < |RecordsFields(rs)| ==> Omits(RecordsFields(rs)[i], NUL)
  {
    if |rs| > 0 {
      assert Printable(rs[0]);
      RecordOmitsNul(rs[0]);
      RecordsOmitNul(rs[1..]);
    }
  }

  /**
   What parsing makes of any printed status, for any NUL-free paths: the headers, and the
   changes its records are taken for. Total counts them all, Changed is the first maxFiles of
   them in order, and Truncated says that some were left out.
   */
  lemma StatusIsParsed(h: Headers, rs: seq<Record>, maxFiles: int)
    requires PrintableHeaders(h) && AllPrintable(rs)
    ensures ParseStatus(Print(h, rs), maxFiles) == Reported(h, AllUnderstood(rs), maxFiles)
  {
    var fields, cs := HeaderFields(h) + RecordsFields(rs), AllUnderstood(rs);
    HeadersOmitNul(h);
    RecordsOmitNul(rs);
    FieldsAreRead(fields);
    WalkHeaders(h, RecordsFields(rs), maxFiles);
    WalkRecords(WithHeaders(h), rs, maxFiles);
    UnderstoodArePathed(rs);
    AddedAll(WithHeaders(h), cs, maxFiles);
    assert [] + cs[..Kept(|cs|, maxFiles)] == cs[..Kept(|cs|, maxFiles)];
  }

  predicate NoConflicts(rs: seq<Record>) { forall i :: 0 <= i < |rs| ==> !rs[i].Unmerged? }

  /** Only a conflict is taken for something else, and every conflict is. */
  lemma {:induction false} UnderstoodExactly(rs: seq<Record>)
    requires AllPrintable(rs)
    ensures AllUnderstood(rs) == AllDescribed(rs) <==> NoConflicts(rs)
    ensures |AllUnderstood(rs)| <= |AllDescribed(rs)|
  {
    if |rs| > 0 {
      assert Printable(rs[0]);
      UnderstoodExactly(rs[1..]);
      var a, b := AllUnderstood(rs), AllDescribed(rs);
      var x, y := Present(Understood(rs[0])), Present(Described(rs[0]));
      assert a == x + AllUnderstood(rs[1..]) && b == y + AllDescribed(rs[1..]);
      if rs[0].Unmerged? && |x| == 1 {
        assert a[0].path != b[0].path;
      } else if !rs[0].Unmerged? {
        assert x == y;
        assert a[|x|..] == AllUnderstood(rs[1..]) && b[|x|..] == AllDescribed(rs[1..]);
        if NoConflicts(rs) { assert NoConflicts(rs[1..]); }
        if NoConflicts(rs[1..]) { assert forall i :: 0 < i < |rs| ==> rs[i] == rs[1..][i - 1]; }
      }
    }
  }

  /**
   Printing then parsing recovers exactly what was printed, for every bound on the files
   kept, if and only if no record is a conflict.
   */
  lemma StatusRoundTrip(h: Headers, rs: seq<Record>)
    requires PrintableHeaders(h) && AllPrintable(rs)
    ensures (forall maxFiles :: ParseStatus(Print(h, rs), maxFiles) == Reported(h, AllDescribed(rs), maxFiles))
            <==> NoConflicts(rs)
  {
    UnderstoodExactly(rs);
    forall maxFiles
      ensures ParseStatus(Print(h, rs), maxFiles) == Reported(h, AllUnderstood(rs), maxFiles)
    {
      StatusIsParsed(h, rs, maxFiles);
    }
    var a, b := AllUnderstood(rs), AllDescribed(rs);
    if a != b {
      assert Reported(h, a, |b|).changed == a[..|a|] == a;
      assert Reported(h, b, |b|).changed == b[..|b|] == b;
    }
  }

  /** A status whose only record is a conflict: clean when the path has no space, another path when it has one. */
  lemma ConflictsAreMisread(h: Headers, states: States, details: seq<string>, path: string)
    requires PrintableHeaders(h) && Printable(Unmerged(states, details, path))
    ensures var s := ParseStatus(Print(h, [Unmerged(states, details, path)]), 1);
            var space := Index(path, ' ');
            if space < 0 || path[space + 1..] == "" then s.total == 0 && !s.dirty && s.changed == []
            else s.total == 1 && s.dirty && s.changed == [Conflicted(path[space + 1..])]
  {
    var rs := [Unmerged(states, details, path)];
    StatusIsParsed(h, rs, 1);
    assert AllUnderstood(rs) == Present(Understood(rs[0])) + AllUnderstood(rs[1..]);
    assert AllUnderstood(rs[1..]) == [];
  }
}
