/** What a merge or a removal answers, decided by the lines of the document (internal/codexconfig/merge.go:60-136). */
module CodexOutcomes {
  // The conditions below speak of marker lines, headers and keys, not of how they are searched for.

  import opened Text
  import opened Toml
  import opened CodexLines
  import opened CodexConfig
  import opened CodexRegions
  import opened CodexMerge

  // ---------------------------------------------------------------- the document's own words

  /** A begin marker of the project with an end marker somewhere after it. */
  ghost predicate HasRegion(lines: seq<string>, id: string) {
    exists i, j :: 0 <= i < j < |lines| && TrimSpace(lines[i]) == BeginMarker(id) && TrimSpace(lines[j]) == EndMarker(id)
  }

  /** The header of the server's own table. */
  predicate Names(line: string, name: string) { ParseTableHeader(line) == Some([SERVERS, name]) }

  predicate HasTable(lines: seq<string>, name: string) { exists i :: 0 <= i < |lines| && Names(lines[i], name) }

  /** The closest header above line `i` is `[mcp_servers]`. */
  ghost predicate InServersTable(headers: seq<Path>, i: int) {
    exists h :: 0 <= h < i <= |headers| && headers[h] == Some([SERVERS]) && forall k :: h < k < i ==> headers[k].None?
  }

  /** A key of the server's name directly under `[mcp_servers]`. */
  ghost predicate KeyAt(headers: seq<Path>, keys: seq<Option<string>>, name: string, i: int) {
    0 <= i < |headers| && i < |keys| && headers[i].None? && keys[i] == Some(name) && InServersTable(headers, i)
  }

  ghost predicate HasKey(lines: seq<string>, name: string) {
    exists i :: KeyAt(Map(ParseTableHeader, lines), Map(ParseKeyName, lines), name, i)
  }

  // ---------------------------------------------------------------- the three searches

  /** The first begin text and the first end text after it. */
  predicate RegionAt(texts: seq<string>, begin: string, end: string, first: int, last: int) {
    && 0 <= first < last < |texts| && texts[first] == begin && texts[last] == end
    && (forall i :: 0 <= i < first ==> texts[i] != begin)
    && (forall i :: first < i < last ==> texts[i] != end)
  }

  lemma RegionIsExact(texts: seq<string>, begin: string, end: string)
    ensures var s := FindRegion(texts, begin, end);
            && (s.Some? ==> RegionAt(texts, begin, end, s.value.first, s.value.last))
            && (s.Some? <==> exists i, j :: 0 <= i < j < |texts| && texts[i] == begin && texts[j] == end)
  {
    var first := FindText(texts, 0, begin);
    if first < |texts| {
      var last := FindText(texts, first + 1, end);
    }
  }

  /** A header that belongs to the server's table: none, or one of its sub-tables. */
  predicate Belongs(header: Path, name: string) {
    header.Some? ==> |header.value| > 2 && header.value[..2] == [SERVERS, name]
  }

  /** The first header naming the server, with everything up to the next header that is not a sub-table of it. */
  predicate TableAt(headers: seq<Path>, name: string, first: int, last: int) {
    && 0 <= first <= last < |headers| && headers[first] == Some([SERVERS, name])
    && (forall i :: 0 <= i < first ==> headers[i] != Some([SERVERS, name]))
    && (forall i :: first < i <= last ==> Belongs(headers[i], name))
    && (last + 1 < |headers| ==> !Belongs(headers[last + 1], name))
  }

  lemma ServerIs(header: Path, name: string)
    ensures IsServer(header, name) <==> header == Some([SERVERS, name])
    ensures (header.None? || IsSubTable(header, name)) <==> Belongs(header, name)
  {
    if IsServer(header, name) { assert header.value == [SERVERS, name]; }
  }

  lemma {:induction false} EndIsExact(headers: seq<Path>, i: nat, name: string)
    requires i <= |headers|
    ensures var k := FindServerEnd(headers, i, name);
            && (forall j :: i <= j < k ==> Belongs(headers[j], name))
            && (k < |headers| ==> !Belongs(headers[k], name))
    decreases |headers| - i
  {
    if i < |headers| {
      ServerIs(headers[i], name);
      if Belongs(headers[i], name) { EndIsExact(headers, i + 1, name); }
    }
  }

  lemma TableIsExact(headers: seq<Path>, name: string)
    ensures var s := FindServerTable(headers, name);
            && (s.Some? ==> TableAt(headers, name, s.value.first, s.value.last))
            && (s.Some? <==> exists i :: 0 <= i < |headers| && headers[i] == Some([SERVERS, name]))
  {
    forall i | 0 <= i < |headers| ensures IsServer(headers[i], name) <==> headers[i] == Some([SERVERS, name]) {
      ServerIs(headers[i], name);
    }
    var first := FindServer(headers, 0, name);
    if first < |headers| { EndIsExact(headers, first + 1, name); }
  }

  lemma InServersStep(headers: seq<Path>, i: nat)
    requires i < |headers|
    ensures InServersTable(headers, i + 1) <==> InServers(headers[i], InServersTable(headers, i))
  {
    if headers[i].None? && InServersTable(headers, i) {
      var h :| 0 <= h < i && headers[h] == Some([SERVERS]) && forall k :: h < k < i ==> headers[k].None?;
      assert forall k :: h < k < i + 1 ==> headers[k].None?;
    }
    if headers[i].Some? && InServers(headers[i], false) {
      assert headers[i].value == [SERVERS];
    }
    if InServersTable(headers, i + 1) {
      var h :| 0 <= h < i + 1 && headers[h] == Some([SERVERS]) && forall k :: h < k < i + 1 ==> headers[k].None?;
    }
  }

  lemma {:induction false} InlineIsExact(headers: seq<Path>, keys: seq<Option<string>>, i: nat, name: string, inServers: bool)
    requires |keys| == |headers| && i <= |headers| && (inServers <==> InServersTable(headers, i))
    ensures var k := FindInline(headers, keys, i, name, inServers);
            && (k < |headers| ==> KeyAt(headers, keys, name, k))
            && (forall j :: i <= j < k ==> !KeyAt(headers, keys, name, j))
    decreases |headers| - i
  {
    if i < |headers| && !(headers[i].None? && inServers && keys[i] == Some(name)) {
      InServersStep(headers, i);
      InlineIsExact(headers, keys, i + 1, name, InServers(headers[i], inServers));
    }
  }

  // ---------------------------------------------------------------- where an entry is

  lemma TablesMap(lines: seq<string>, name: string)
    ensures HasTable(lines, name) <==>
              exists i :: 0 <= i < |lines| && Map(ParseTableHeader, lines)[i] == Some([SERVERS, name])
  {
    var headers := Map(ParseTableHeader, lines);
    assert forall i :: 0 <= i < |lines| ==> headers[i] == ParseTableHeader(lines[i]);
    if HasTable(lines, name) {
      var i :| 0 <= i < |lines| && Names(lines[i], name);
      assert headers[i] == Some([SERVERS, name]);
    }
    if exists i :: 0 <= i < |lines| && headers[i] == Some([SERVERS, name]) {
      var i :| 0 <= i < |lines| && headers[i] == Some([SERVERS, name]);
      assert Names(lines[i], name);
    }
  }

  lemma RegionsMap(lines: seq<string>, id: string)
    ensures HasRegion(lines, id) <==> FindManagedRegion(lines, id).Some?
  {
    var texts := Map(TrimSpace, lines);
    RegionIsExact(texts, BeginMarker(id), EndMarker(id));
    if HasRegion(lines, id) {
      var i, j :| 0 <= i < j < |lines| && TrimSpace(lines[i]) == BeginMarker(id) && TrimSpace(lines[j]) == EndMarker(id);
      assert texts[i] == BeginMarker(id) && texts[j] == EndMarker(id);
    }
    if FindManagedRegion(lines, id).Some? {
      var s := FindManagedRegion(lines, id).value;
      assert texts[s.first] == TrimSpace(lines[s.first]) && texts[s.last] == TrimSpace(lines[s.last]);
    }
  }

  lemma KeysMap(lines: seq<string>, name: string)
    ensures var k := FindInline(Map(ParseTableHeader, lines), Map(ParseKeyName, lines), 0, name, false);
            && (k < |lines| <==> HasKey(lines, name))
            && (k < |lines| ==> KeyAt(Map(ParseTableHeader, lines), Map(ParseKeyName, lines), name, k))
  {
    InlineIsExact(Map(ParseTableHeader, lines), Map(ParseKeyName, lines), 0, name, false);
  }

  /**
   Where the project's entry is, exactly: in its region if there is one, else in a table of
   its name together with the sub-tables that follow, else at a key of its name, else nowhere.
   */
  lemma LocateIsExact(lines: seq<string>, id: string)
    ensures var at, name, headers := LocateLines(lines, id), EntryName(id), Map(ParseTableHeader, lines);
            && (at.Managed? <==> HasRegion(lines, id))
            && (at.Foreign? <==> !HasRegion(lines, id) && HasTable(lines, name))
            && (at.ForeignInline? <==> !HasRegion(lines, id) && !HasTable(lines, name) && HasKey(lines, name))
            && (at.Managed? ==> RegionAt(Map(TrimSpace, lines), BeginMarker(id), EndMarker(id), at.first, at.last))
            && (at.Foreign? ==> TableAt(headers, name, at.first, at.last))
            && (at.ForeignInline? ==> KeyAt(headers, Map(ParseKeyName, lines), name, at.index))
  {
    var name := EntryName(id);
    RegionsMap(lines, id);
    RegionIsExact(Map(TrimSpace, lines), BeginMarker(id), EndMarker(id));
    TablesMap(lines, name);
    TableIsExact(Map(ParseTableHeader, lines), name);
    KeysMap(lines, name);
  }

  // ---------------------------------------------------------------- what a merge answers

  /** An entry that can be rendered into a usable server. */
  predicate Usable(e: Entry) { TrimSpace(e.name) != "" && TrimSpace(e.url) != "" && TrimSpace(e.tokenVar) != "" }

  /** The document is blank or parses. */
  predicate Readable(document: string, valid: string -> bool) { TrimSpace(document) == "" || valid(document) }

  /**
   Every answer of a merge and exactly when it is given. An entry LCTK did not write is
   replaced only by force, and never when it is a key.
   */
  lemma MergeIsExact(document: string, id: string, e: Entry, force: bool, valid: string -> bool)
    requires ValidId(id) && PrintableTimeouts(e)
    ensures var lines, name, written := SplitLines(document), EntryName(id), JoinLines(Written(document, id, e));
            Merge(document, id, e, force, valid) ==
              if !Usable(e) then Err(InvalidEntry)
              else if !Readable(document, valid) then Err(ExistingInvalid)
              else if !HasRegion(lines, id) && HasTable(lines, name) && !force then Err(ForeignEntry)
              else if !HasRegion(lines, id) && !HasTable(lines, name) && HasKey(lines, name) then Err(ForeignInlineEntry)
              else if valid(written) then Ok(written, false)
              else Err(InvalidDocument)
  {
    LocateIsExact(SplitLines(document), id);
    RegionReadsBack(id, e);
  }

  /** The lines of a merged document: the region in place of the old one, of the forced table, or at the end. */
  lemma WrittenIsExact(document: string, id: string, e: Entry)
    ensures var lines, at, kept := SplitLines(document), Locate(document, id), TrimTrailingBlanks(SplitLines(document));
            Written(document, id, e) ==
              match at
              case Managed(first, last) => lines[..first] + Block(id, e) + lines[last + 1..]
              case Foreign(first, last) => lines[..first] + Block(id, e) + lines[last + 1..]
              case _ => kept + (if kept == [] then [] else [""]) + Block(id, e)
  {
  }

  /** The line is in the region the merge may rewrite. */
  predicate InRegion(lines: seq<string>, id: string, i: int) {
    var at := LocateLines(lines, id);
    at.Managed? && at.first <= i <= at.last
  }

  lemma KeptAround(lines: seq<string>, first: nat, last: nat, block: seq<string>, i: nat)
    requires first <= last < |lines| && i < |lines| && !(first <= i <= last)
    ensures lines[i] in lines[..first] + block + lines[last + 1..]
  {
    var all := lines[..first] + block + lines[last + 1..];
    if i < first { assert all[i] == lines[i]; } else { assert all[first + |block| + (i - last - 1)] == lines[i]; }
  }

  /**
   A merge without force that succeeds keeps every line outside LCTK's own region, blank lines
   at the end aside: in particular every line of a table or a key that LCTK did not write.
   */
  lemma UnforcedMergeKeepsLines(document: string, id: string, e: Entry, valid: string -> bool, i: nat)
    requires ValidId(id) && PrintableTimeouts(e) && AllClean(SplitLines(document))
    requires Merge(document, id, e, false, valid).Ok?
    requires i < |SplitLines(document)| && !InRegion(SplitLines(document), id, i) && !IsBlank(SplitLines(document)[i])
    ensures SplitLines(document)[i] in SplitLines(Merge(document, id, e, false, valid).document)
  {
    var lines, at := SplitLines(document), Locate(document, id);
    MergeResult(document, id, e, false, valid);
    MergeIsExact(document, id, e, false, valid);
    LocateIsExact(lines, id);
    WrittenIsExact(document, id, e);
    if at.Managed? {
      KeptAround(lines, at.first, at.last, Block(id, e), i);
    } else {
      var kept := TrimTrailingBlanks(lines);
      assert i < |kept| && kept[i] == lines[i];
      assert Written(document, id, e)[i] == lines[i];
    }
  }

  /** So a table or a key of the server's name that LCTK did not write is never touched without force. */
  lemma ForeignEntryIsRefused(document: string, id: string, e: Entry, valid: string -> bool)
    requires ValidId(id) && PrintableTimeouts(e) && !HasRegion(SplitLines(document), id)
    requires HasTable(SplitLines(document), EntryName(id)) || HasKey(SplitLines(document), EntryName(id))
    ensures Merge(document, id, e, false, valid).Err?
    ensures Usable(e) && Readable(document, valid) ==>
              Merge(document, id, e, false, valid).failure ==
                if HasTable(SplitLines(document), EntryName(id)) then ForeignEntry else ForeignInlineEntry
  {
    MergeIsExact(document, id, e, false, valid);
  }

  // ---------------------------------------------------------------- what a removal answers

  /** Without a region the document is returned as it is, even if its entry is written elsewhere. */
  lemma NothingToRemove(document: string, id: string, valid: string -> bool)
    requires !HasRegion(SplitLines(document), id)
    ensures Remove(document, id, valid) == Ok(document, false)
  {
    LocateIsExact(SplitLines(document), id);
  }

  /** A removal takes out the project's region and nothing else, and refuses to leave what does not parse. */
  lemma RemoveIsExact(document: string, id: string, valid: string -> bool)
    requires HasRegion(SplitLines(document), id)
    ensures var lines, at := SplitLines(document), Locate(document, id);
            at.Managed? &&
            var result := JoinLines(TrimTrailingBlanks(lines[..at.first] + lines[at.last + 1..]));
            Remove(document, id, valid) == if TrimSpace(result) != "" && !valid(result) then Err(InvalidDocument) else Ok(result, true)
  {
    LocateIsExact(SplitLines(document), id);
    RemoveManaged(document, id, valid);
  }
}
