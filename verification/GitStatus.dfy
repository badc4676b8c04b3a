/**
 Reading `git status --porcelain=v2 --branch -z` (internal/gitinfo/parse.go; the format is
 git-status, "Porcelain Format Version 2"). Bytes are characters.
 */
module GitStatus {
  import opened Text

  const NUL := '\0'

  datatype Change = Change(path: string, origin: string, state: string, staged: bool, workingTree: bool)

  const NO_CHANGE := Change("", "", "", false, false)

  datatype Report = Report(
    commit: string, short: string, unborn: bool,
    branch: string, detached: bool, upstream: string, ahead: nat, behind: nat,
    dirty: bool, total: nat, changed: seq<Change>, truncated: bool)

  const EMPTY := Report("", "", false, "", false, "", 0, 0, false, 0, [], false)

  function StateOf(code: char): string {
    if code == 'A' then "added"
    else if code == 'M' then "modified"
    else if code == 'D' then "deleted"
    else if code == 'R' then "renamed"
    else if code == 'C' then "copied"
    else if code == 'T' then "type-changed"
    else if code == 'U' then "conflicted"
    else "modified"
  }

  function ChangeFromXY(xy: string): Change {
    if |xy| < 2 then NO_CHANGE
    else Change("", "", StateOf(if xy[0] == '.' then xy[1] else xy[0]), xy[0] != '.', xy[1] != '.')
  }

  /** strings.SplitN(s, " ", n) for n > 0. */
  function SplitN(s: string, n: nat): (parts: seq<string>)
    requires n > 0
    ensures 0 < |parts| <= n
    decreases n
  {
    var i := Index(s, ' ');
    if n == 1 || i < 0 then [s] else [s[..i]] + SplitN(s[i + 1..], n - 1)
  }

  /** A record of `fixed` fields and then a path; None when it has too few or the path is empty. */
  function ParseFixed(record: string, fixed: nat): Option<Change>
    requires fixed > 1
  {
    var parts := SplitN(record, fixed + 1);
    if |parts| < fixed + 1 || parts[fixed] == "" then None
    else Some(ChangeFromXY(parts[1]).(path := parts[fixed]))
  }

  function ParseOrdinary(record: string): Option<Change> { ParseFixed(record, 8) }

  function ParseRename(record: string): Option<Change> { ParseFixed(record, 9) }

  function LastField(record: string, fixed: nat): Option<string>
    requires fixed > 0
  {
    var parts := SplitN(record, fixed + 1);
    if |parts| <= fixed || parts[fixed] == "" then None else Some(parts[fixed])
  }

  // ---------------------------------------------------------------- headers

  predicate IsDigit(c: char) { '0' <= c <= '9' }

  function Decimal(digits: string): (n: nat)
    requires forall i :: 0 <= i < |digits| ==> IsDigit(digits[i])
  {
    if digits == "" then 0
    else
      assert IsDigit(digits[|digits| - 1]);
      Decimal(digits[..|digits| - 1]) * 10 + (digits[|digits| - 1] as nat - '0' as nat)
  }

  const MAX_INT := 0x7FFF_FFFF_FFFF_FFFF

  function TrimSigns(s: string): string {
    if s != "" && (s[0] == '+' || s[0] == '-') then TrimSigns(s[1..]) else s
  }

  /** strconv.Atoi of what is left without its signs, or 0. */
  function SignedCount(field: string): nat {
    var digits := TrimSigns(field);
    if digits == "" || exists i :: 0 <= i < |digits| && !IsDigit(digits[i]) then 0
    else if Decimal(digits) > MAX_INT then 0
    else Decimal(digits)
  }

  function Header(s: Report, header: string): Report {
    var cut := Index(header, ' ');
    if cut < 0 then s
    else
      var key, value := header[..cut], header[cut + 1..];
      if key == "branch.oid" then
        if value == "(initial)" then s.(unborn := true) else s.(commit := value)
      else if key == "branch.head" then
        if value == "(detached)" then s.(detached := true) else s.(branch := value)
      else if key == "branch.upstream" then s.(upstream := value)
      else if key == "branch.ab" then
        var space := Index(value, ' ');
        if space < 0 then s
        else s.(ahead := SignedCount(value[..space]), behind := SignedCount(value[space + 1..]))
      else s
  }

  // ---------------------------------------------------------------- records

  function Add(s: Report, c: Change, maxFiles: int): Report {
    if c.path == "" then s
    else if |s.changed| >= maxFiles then s.(total := s.total + 1, truncated := true)
    else s.(total := s.total + 1, changed := s.changed + [c])
  }

  function AddSome(s: Report, c: Option<Change>, maxFiles: int): Report {
    match c case None => s case Some(change) => Add(s, change, maxFiles)
  }

  /** A rename takes the next field, whatever it holds, as its origin. */
  function WithOrigin(c: Option<Change>, fields: seq<string>): Option<Change> {
    if c.Some? && |fields| > 1 then Some(c.value.(origin := fields[1])) else c
  }

  function Conflict(record: string): Option<Change> {
    match LastField(record, 11) case None => None case Some(path) => Some(Change(path, "", "conflicted", false, true))
  }

  function Untracked(record: string): Option<Change>
    requires HasPrefix(record, "? ")
  {
    Some(Change(record[2..], "", "untracked", false, true))
  }

  /** The effect of the first of the fields, and how many fields it takes. */
  function Take(s: Report, fields: seq<string>, maxFiles: int): (r: (Report, nat))
    requires |fields| > 0
    ensures 1 <= r.1 <= |fields|
  {
    var record := fields[0];
    if HasPrefix(record, "# ") then (Header(s, record[2..]), 1)
    else if HasPrefix(record, "1 ") then (AddSome(s, ParseOrdinary(record), maxFiles), 1)
    else if HasPrefix(record, "2 ") then
      (AddSome(s, WithOrigin(ParseRename(record), fields), maxFiles), if |fields| > 1 then 2 else 1)
    else if HasPrefix(record, "u ") then (AddSome(s, Conflict(record), maxFiles), 1)
    else if HasPrefix(record, "? ") then (AddSome(s, Untracked(record), maxFiles), 1)
    else (s, 1)
  }

  function Walk(s: Report, fields: seq<string>, maxFiles: int): Report
    decreases |fields|
  {
    if |fields| == 0 then s
    else
      var step := Take(s, fields, maxFiles);
      Walk(step.0, fields[step.1..], maxFiles)
  }

  function Finish(s: Report): Report {
    s.(dirty := s.total > 0, short := if |s.commit| >= 7 then s.commit[..7] else s.short)
  }

  function ParseStatus(raw: string, maxFiles: int): Report {
    Finish(Walk(EMPTY, SplitOn(TrimSuffix(raw, NUL), NUL), maxFiles))
  }

  // ---------------------------------------------------------------- the mutable status

  class Status {
    var report: Report

    constructor ()
      ensures report == EMPTY
    {
      report := EMPTY;
    }

    method AddChange(c: Change, maxFiles: int)
      modifies this
      ensures report == Add(old(report), c, maxFiles)
    {
      if c.path == "" {
        return;
      }
      report := report.(total := report.total + 1);
      if |report.changed| >= maxFiles {
        report := report.(truncated := true);
        return;
      }
      report := report.(changed := report.changed + [c]);
    }

    method ReadHeader(header: string)
      modifies this
      ensures report == Header(old(report), header)
    {
      var cut := Index(header, ' ');
      if cut < 0 {
        return;
      }
      var key, value := header[..cut], header[cut + 1..];
      if key == "branch.oid" {
        if value == "(initial)" {
          report := report.(unborn := true);
          return;
        }
        report := report.(commit := value);
      } else if key == "branch.head" {
        if value == "(detached)" {
          report := report.(detached := true);
          return;
        }
        report := report.(branch := value);
      } else if key == "branch.upstream" {
        report := report.(upstream := value);
      } else if key == "branch.ab" {
        var space := Index(value, ' ');
        if space < 0 {
          return;
        }
        report := report.(ahead := SignedCount(value[..space]), behind := SignedCount(value[space + 1..]));
      }
    }

    /** The switch at one field; a rename takes two. */
    method ReadRecord(fields: seq<string>, i: nat, maxFiles: int) returns (taken: nat)
      requires i < |fields|
      modifies this
      ensures (report, taken) == Take(old(report), fields[i..], maxFiles)
    {
      var record := fields[i];
      taken := 1;
      if HasPrefix(record, "# ") {
        ReadHeader(record[2..]);
      } else if HasPrefix(record, "1 ") {
        var change := ParseOrdinary(record);
        if change.Some? {
          AddChange(change.value, maxFiles);
        }
      } else if HasPrefix(record, "2 ") {
        var change := ParseRename(record);
        if i + 1 < |fields| {
          if change.Some? {
            change := Some(change.value.(origin := fields[i + 1]));
          }
          taken := 2;
        }
        if change.Some? {
          AddChange(change.value, maxFiles);
        }
      } else if HasPrefix(record, "u ") {
        var path := LastField(record, 11);
        if path.Some? {
          AddChange(Change(path.value, "", "conflicted", false, true), maxFiles);
        }
      } else if HasPrefix(record, "? ") {
        AddChange(Change(record[2..], "", "untracked", false, true), maxFiles);
      }
    }
  }

  method Parse(raw: string, maxFiles: int) returns (report: Report)
    ensures report == ParseStatus(raw, maxFiles)
  {
    var status := new Status();
    var fields := SplitOn(TrimSuffix(raw, NUL), NUL);
    var i := 0;
    while i < |fields|
      invariant i <= |fields|
      invariant Walk(status.report, fields[i..], maxFiles) == Walk(EMPTY, fields, maxFiles)
    {
      var taken := status.ReadRecord(fields, i, maxFiles);
      assert fields[i..][taken..] == fields[i + taken..];
      i := i + taken;
    }
    return Finish(status.report);
  }
}
