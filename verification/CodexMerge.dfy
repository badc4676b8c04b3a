/** Merge is idempotent, finds what it wrote, and Remove undoes it (internal/codexconfig/merge.go:56-136). */
module CodexMerge {
  import opened Text
  import opened CodexLines
  import opened CodexConfig
  import opened CodexRegions

  function Texts(lines: seq<string>): seq<string> { Map(TrimSpace, lines) }

  lemma MapConcat<A, B>(f: A -> B, a: seq<A>, b: seq<A>)
    ensures Map(f, a + b) == Map(f, a) + Map(f, b)
  {
  }

  lemma BlankText()
    ensures Texts([""]) == [""]
  {
    assert Texts([""])[0] == TrimSpace("") == "";
  }

  lemma TextsConcat(a: seq<string>, b: seq<string>, c: seq<string>)
    ensures Texts(a + b + c) == Texts(a) + Texts(b) + Texts(c)
  {
    MapConcat(TrimSpace, a + b, c);
    MapConcat(TrimSpace, a, b);
  }

  lemma InnerHasNoEnd(e: Entry, id: string)
    requires PrintableTimeouts(e)
    ensures Without(Texts(Inner(e)), 0, EndMarker(id))
  {
    InnerIsQuiet(e, id);
    forall i | 0 <= i < |Inner(e)| ensures Texts(Inner(e))[i] != EndMarker(id) { assert Quiet(Inner(e)[i], id); }
  }

  lemma FrameIsShaped(begin: string, inner: seq<string>, end: string)
    requires begin != end && Without(inner, 0, end)
    ensures Shaped([begin] + inner + [end], begin, end)
  {
    var block := [begin] + inner + [end];
    forall i | 0 < i < |block| - 1 ensures block[i] != end { assert block[i] == inner[i - 1]; }
  }

  lemma BlockIsShaped(id: string, e: Entry)
    requires ValidId(id) && PrintableTimeouts(e)
    ensures Shaped(Texts(Block(id, e)), BeginMarker(id), EndMarker(id))
  {
    MarkersAreFixed(id);
    MarkersDiffer(id);
    InnerHasNoEnd(e, id);
    TextsConcat([BeginMarker(id)], Inner(e), [EndMarker(id)]);
    assert Texts([BeginMarker(id)]) == [BeginMarker(id)] && Texts([EndMarker(id)]) == [EndMarker(id)];
    FrameIsShaped(BeginMarker(id), Texts(Inner(e)), EndMarker(id));
  }

  /** No line opens a region of the project. */
  predicate NoBegin(lines: seq<string>, id: string) { Without(Texts(lines), 0, BeginMarker(id)) }

  lemma {:induction false} FindInPrefix(texts: seq<string>, prefix: seq<string>, i: nat, text: string)
    requires prefix <= texts && i <= |prefix|
    ensures FindText(prefix, i, text)
         == if FindText(texts, i, text) < |prefix| then FindText(texts, i, text) else |prefix|
    decreases |prefix| - i
  {
    if i < |prefix| && prefix[i] != text { FindInPrefix(texts, prefix, i + 1, text); }
  }

  lemma PrefixHasNoRegion(texts: seq<string>, prefix: seq<string>, begin: string, end: string)
    requires prefix <= texts && FindRegion(texts, begin, end).None?
    ensures FindRegion(prefix, begin, end).None?
  {
    var first := FindText(prefix, 0, begin);
    FindInPrefix(texts, prefix, 0, begin);
    if first < |prefix| { FindInPrefix(texts, prefix, first + 1, end); }
  }

  lemma PaddingHasNoRegion(texts: seq<string>, begin: string, end: string)
    requires FindRegion(texts, begin, end).None? && end != ""
    ensures FindRegion(texts + [""], begin, end).None?
  {
    var first := FindText(texts, 0, begin);
    FindInPrefix(texts + [""], texts, 0, begin);
    if first < |texts| { FindInPrefix(texts + [""], texts, first + 1, end); }
  }

  lemma TextsPrefix(lines: seq<string>, k: nat)
    requires k <= |lines|
    ensures Texts(lines[..k]) == Texts(lines)[..k]
  {
  }

  lemma AppendKeepsPrefix(lines: seq<string>)
    ensures var kept := TrimTrailingBlanks(lines);
            AppendBlock(lines, []) == if kept == [] then kept else kept + [""]
  {
  }

  lemma WithoutPrefix(texts: seq<string>, k: nat, text: string)
    requires k <= |texts| && Without(texts, 0, text)
    ensures Without(texts[..k], 0, text)
  {
  }

  lemma WithoutPadded(texts: seq<string>, text: string)
    requires text != "" && Without(texts, 0, text)
    ensures Without(texts + [""], 0, text)
  {
  }

  lemma TextsPadded(lines: seq<string>)
    ensures Texts(lines + [""]) == Texts(lines) + [""]
  {
    MapConcat(TrimSpace, lines, [""]);
    BlankText();
  }

  lemma AppendHasNoRegion(lines: seq<string>, begin: string, end: string)
    requires FindRegion(Texts(lines), begin, end).None? && end != ""
    ensures FindRegion(Texts(AppendBlock(lines, [])), begin, end).None?
  {
    var kept := TrimTrailingBlanks(lines);
    AppendKeepsPrefix(lines);
    TextsPrefix(lines, |kept|);
    PrefixHasNoRegion(Texts(lines), Texts(kept), begin, end);
    if kept != [] {
      TextsPadded(kept);
      PaddingHasNoRegion(Texts(kept), begin, end);
    }
  }

  /** The lines before the insertion point never hold a whole region of the project. */
  lemma BeforeHasNoRegion(lines: seq<string>, id: string)
    ensures FindManagedRegion(Before(lines, LocateLines(lines, id)), id).None?
  {
    var at := LocateLines(lines, id);
    var begin, end := BeginMarker(id), EndMarker(id);
    if at.Managed? {
      ManagedIsExact(lines, id);
    } else if at.Foreign? {
      TextsPrefix(lines, at.first);
      PrefixHasNoRegion(Texts(lines), Texts(lines[..at.first]), begin, end);
    } else {
      AppendHasNoRegion(lines, begin, end);
    }
  }

  /** A managed region is preceded by no begin marker at all. */
  lemma ManagedIsExact(lines: seq<string>, id: string)
    requires LocateLines(lines, id).Managed?
    ensures NoBegin(Before(lines, LocateLines(lines, id)), id)
  {
    TextsPrefix(lines, LocateLines(lines, id).first);
  }

  /** Every begin marker of the project is followed, somewhere, by its end marker. */
  predicate Balanced(lines: seq<string>, id: string) {
    forall i :: 0 <= i < |lines| && Texts(lines)[i] == BeginMarker(id)
      ==> !Without(Texts(lines), i + 1, EndMarker(id))
  }

  /** A document without a loose begin marker meets the exactness condition. */
  lemma BalancedIsExact(lines: seq<string>, id: string)
    requires Balanced(lines, id)
    ensures NoBegin(Before(lines, LocateLines(lines, id)), id)
  {
    var at := LocateLines(lines, id);
    if at.Managed? {
      ManagedIsExact(lines, id);
    } else {
      NoRegionNoBegin(lines, id);
      if at.Foreign? { TextsPrefix(lines, at.first); } else { AppendHasNoBegin(lines, id); }
    }
  }

  lemma NoneFound(texts: seq<string>, text: string)
    ensures FindText(texts, 0, text) == |texts| <==> Without(texts, 0, text)
  {
  }

  lemma NoRegionNoBegin(lines: seq<string>, id: string)
    requires Balanced(lines, id) && FindManagedRegion(lines, id).None?
    ensures NoBegin(lines, id)
  {
    NoneFound(Texts(lines), BeginMarker(id));
  }

  lemma AppendHasNoBegin(lines: seq<string>, id: string)
    requires NoBegin(lines, id)
    ensures NoBegin(AppendBlock(lines, []), id)
  {
    var kept := TrimTrailingBlanks(lines);
    var begin := BeginMarker(id);
    assert |begin| > 0;
    AppendKeepsPrefix(lines);
    assert kept == lines[..|kept|];
    TextsPrefix(lines, |kept|);
    WithoutPrefix(Texts(lines), |kept|, begin);
    WithoutPadded(Texts(kept), begin);
    TextsPadded(kept);
  }

  // ---------------------------------------------------------------- what a merge leaves

  /** Where the region is found once a block stands after `before`. */
  function RegionStart(before: seq<string>, id: string): (k: nat)
    ensures k <= |before|
    ensures k == |before| <==> NoBegin(before, id)
  {
    NoneFound(Texts(before), BeginMarker(id));
    FindText(Texts(before), 0, BeginMarker(id))
  }

  lemma RegionInTexts(texts: seq<string>, before: seq<string>, begin: string, end: string,
                      block: seq<string>, after: seq<string>, n: nat, m: nat)
    requires texts == before + block + after && |before| == n && |block| == m
    requires Shaped(block, begin, end) && FindRegion(before, begin, end).None?
    ensures FindRegion(texts, begin, end) == Some(Span(FindText(before, 0, begin), n + m - 1))
  {
    NoneFound(before, begin);
    if Without(before, 0, begin) {
      RegionFound(before, begin, end, block, after);
    } else {
      RegionSwallows(before, begin, end, block, after);
    }
  }

  lemma RegionInLines(lines: seq<string>, before: seq<string>, begin: string, end: string, block: seq<string>, after: seq<string>)
    requires lines == before + block + after
    requires Shaped(Texts(block), begin, end) && FindRegion(Texts(before), begin, end).None?
    ensures FindRegion(Texts(lines), begin, end)
         == Some(Span(FindText(Texts(before), 0, begin), |before| + |block| - 1))
  {
    TextsConcat(before, block, after);
    RegionInTexts(Texts(lines), Texts(before), begin, end, Texts(block), Texts(after), |before|, |block|);
  }

  lemma RegionOfPlaced(before: seq<string>, id: string, block: seq<string>, after: seq<string>)
    requires Shaped(Texts(block), BeginMarker(id), EndMarker(id))
    requires FindManagedRegion(before, id).None?
    ensures FindManagedRegion(before + block + after, id)
         == Some(Span(RegionStart(before, id), |before| + |block| - 1))
  {
    RegionInLines(before + block + after, before, BeginMarker(id), EndMarker(id), block, after);
  }

  lemma RegionOfMerged(lines: seq<string>, id: string, at: Location, block: seq<string>)
    requires Within(at, lines) && FindManagedRegion(Before(lines, at), id).None?
    requires Shaped(Texts(block), BeginMarker(id), EndMarker(id))
    ensures FindManagedRegion(MergeAt(lines, at, block), id)
         == Some(Span(RegionStart(Before(lines, at), id), |Before(lines, at)| + |block| - 1))
  {
    MergeSplits(lines, at, block);
    RegionOfPlaced(Before(lines, at), id, block, After(lines, at));
  }

  lemma RegionIsLocation(lines: seq<string>, id: string)
    ensures match FindManagedRegion(lines, id)
            case Some(s) => LocateLines(lines, id) == Managed(s.first, s.last)
            case None => !LocateLines(lines, id).Managed?
  {
  }

  /**
   A merged document locates as managed at exactly the block that was written, if and only
   if no begin marker of the project stands before it.
   */
  lemma MergedIsLocated(lines: seq<string>, id: string, e: Entry)
    requires ValidId(id) && PrintableTimeouts(e)
    ensures var at, block := LocateLines(lines, id), Block(id, e);
            var before := Before(lines, at);
            LocateLines(MergeAt(lines, at, block), id) == Managed(|before|, |before| + |block| - 1)
            <==> NoBegin(before, id)
  {
    BlockIsShaped(id, e);
    PlacedIsLocated(lines, id, LocateLines(lines, id), Block(id, e));
  }

  lemma PlacedIsLocated(lines: seq<string>, id: string, at: Location, block: seq<string>)
    requires at == LocateLines(lines, id)
    requires Shaped(Texts(block), BeginMarker(id), EndMarker(id))
    ensures var before := Before(lines, at);
            LocateLines(MergeAt(lines, at, block), id)
            == Managed(RegionStart(before, id), |before| + |block| - 1)
  {
    BeforeHasNoRegion(lines, id);
    RegionOfMerged(lines, id, at, block);
    RegionIsLocation(MergeAt(lines, at, block), id);
  }

  // ---------------------------------------------------------------- whole documents

  lemma ConcatIsClean(a: seq<string>, b: seq<string>, c: seq<string>)
    requires AllClean(a) && AllClean(b) && AllClean(c)
    ensures AllClean(a + b + c)
  {
  }

  lemma MergeIsClean(lines: seq<string>, at: Location, block: seq<string>)
    requires Within(at, lines) && AllClean(lines) && AllClean(block)
    ensures AllClean(MergeAt(lines, at, block))
  {
    MergeSplits(lines, at, block);
    AppendKeepsPrefix(lines);
    ConcatIsClean(Before(lines, at), block, After(lines, at));
  }

  /** The lines a merge writes, at the place it found. */
  function Written(document: string, id: string, e: Entry): seq<string> {
    MergeAt(SplitLines(document), Locate(document, id), Block(id, e))
  }

  lemma MergeResult(document: string, id: string, e: Entry, force: bool, valid: string -> bool)
    requires ValidId(id) && PrintableTimeouts(e) && AllClean(SplitLines(document))
    ensures AllClean(Written(document, id, e))
    ensures SplitLines(JoinLines(Written(document, id, e))) == Written(document, id, e)
    ensures Merge(document, id, e, force, valid).Ok? ==>
      && Merge(document, id, e, force, valid) == Ok(JoinLines(Written(document, id, e)), false)
      && valid(JoinLines(Written(document, id, e)))
      && ValidEntry(e)
  {
    RegionReadsBack(id, e);
    BlockIsClean(id, e);
    MergeIsClean(SplitLines(document), Locate(document, id), Block(id, e));
    ReadBack(Written(document, id, e));
  }

  lemma Rewrite(before: seq<string>, block: seq<string>, after: seq<string>, start: nat)
    requires start <= |before| && |block| > 0
    ensures ReplaceLines(before + block + after, start, |before| + |block| - 1, block) == before + block + after
        <==> start == |before|
  {
    var lines := before + block + after;
    var again := ReplaceLines(lines, start, |before| + |block| - 1, block);
    assert |again| == |lines| - (|before| - start);
    if start == |before| {
      assert lines[..start] == before && lines[|before| + |block|..] == after;
    }
  }

  /** Writing over the region that a first write leaves. */
  lemma WriteOver(before: seq<string>, block: seq<string>, after: seq<string>, start: nat)
    requires start <= |before| && |block| > 1
    ensures var lines, at := before + block + after, Managed(start, |before| + |block| - 1);
            Within(at, lines) && (MergeAt(lines, at, block) == lines <==> start == |before|)
  {
    Rewrite(before, block, after, start);
  }

  lemma WriteAgain(lines: seq<string>, at: Location, id: string, block: seq<string>, first: seq<string>)
    requires at == LocateLines(lines, id) && first == MergeAt(lines, at, block)
    requires Shaped(Texts(block), BeginMarker(id), EndMarker(id))
    ensures LocateLines(first, id).Managed?
    ensures MergeAt(first, LocateLines(first, id), block) == first <==> NoBegin(Before(lines, at), id)
  {
    PlacedIsLocated(lines, id, at, block);
    MergeSplits(lines, at, block);
    WriteOver(Before(lines, at), block, After(lines, at), RegionStart(Before(lines, at), id));
  }

  lemma SameText(a: seq<string>, b: seq<string>)
    requires AllClean(a) && AllClean(b)
    ensures JoinLines(a) == JoinLines(b) <==> a == b
  {
    ReadBack(a);
    ReadBack(b);
  }

  /**
   Merging the same entry again changes nothing, if and only if no begin marker of the
   project stood before the place of the first merge.
   */
  lemma MergeIsIdempotent(document: string, id: string, e: Entry, force: bool, again: bool, valid: string -> bool)
    requires ValidId(id) && PrintableTimeouts(e) && AllClean(SplitLines(document))
    requires Merge(document, id, e, force, valid).Ok?
    ensures var result := Merge(document, id, e, force, valid).document;
            Merge(result, id, e, again, valid) == Ok(result, false)
            <==> NoBegin(Before(SplitLines(document), Locate(document, id)), id)
  {
    var first := Written(document, id, e);
    var result := JoinLines(first);
    MergeResult(document, id, e, force, valid);
    MergeResult(result, id, e, again, valid);
    BlockIsShaped(id, e);
    WriteAgain(SplitLines(document), Locate(document, id), id, Block(id, e), first);
    SameText(Written(result, id, e), first);
    SecondMerge(result, id, e, again, valid);
  }

  /** A document already holding the project's region is only ever refused for being invalid. */
  lemma SecondMerge(document: string, id: string, e: Entry, force: bool, valid: string -> bool)
    requires ValidId(id) && PrintableTimeouts(e) && ValidEntry(e)
    requires valid(document) && Locate(document, id).Managed?
    ensures var result := JoinLines(Written(document, id, e));
            Merge(document, id, e, force, valid) == if valid(result) then Ok(result, false) else Err(InvalidDocument)
  {
    RegionReadsBack(id, e);
  }

  /** What a removal returns once it knows the lines it keeps. */
  function Removed(kept: seq<string>, valid: string -> bool): Outcome {
    var result := JoinLines(TrimTrailingBlanks(kept));
    if TrimSpace(result) != "" && !valid(result) then Err(InvalidDocument) else Ok(result, true)
  }

  lemma BlankLine()
    ensures IsBlank("")
  {
  }

  lemma TrimAgain(lines: seq<string>)
    ensures TrimTrailingBlanks(AppendBlock(lines, []) + []) == TrimTrailingBlanks(lines)
  {
    var kept := TrimTrailingBlanks(lines);
    BlankLine();
    AppendKeepsPrefix(lines);
    TrimIsUnique(AppendBlock(lines, []) + [], kept);
  }

  /** The document's lines, with the project's region found from `start` to the end of `block`. */
  predicate Reads(document: string, id: string, before: seq<string>, start: nat, block: seq<string>, after: seq<string>) {
    && |block| > 0 && start <= |before|
    && SplitLines(document) == before + block + after
    && Locate(document, id) == Managed(start, |before| + |block| - 1)
  }

  lemma CutOut(before: seq<string>, start: nat, block: seq<string>, after: seq<string>)
    requires |block| > 0 && start <= |before|
    ensures ReplaceLines(before + block + after, start, |before| + |block| - 1, []) == before[..start] + after
  {
    var lines := before + block + after;
    assert lines[..start] == before[..start] && lines[|before| + |block|..] == after;
  }

  lemma RemoveKnown(document: string, id: string, before: seq<string>, start: nat, block: seq<string>, after: seq<string>,
                    valid: string -> bool)
    requires Reads(document, id, before, start, block, after)
    ensures Remove(document, id, valid) == Removed(before[..start] + after, valid)
  {
    CutOut(before, start, block, after);
  }

  lemma PlacedReads(lines: seq<string>, id: string, at: Location, block: seq<string>, written: seq<string>)
    requires at == LocateLines(lines, id) && written == MergeAt(lines, at, block) && AllClean(written)
    requires Shaped(Texts(block), BeginMarker(id), EndMarker(id))
    ensures Reads(JoinLines(written), id, Before(lines, at), RegionStart(Before(lines, at), id), block, After(lines, at))
  {
    PlacedIsLocated(lines, id, at, block);
    MergeSplits(lines, at, block);
    ReadBack(written);
  }

  /** The lines around a merge that a later removal keeps. */
  function Around(lines: seq<string>, id: string): seq<string> {
    var at := LocateLines(lines, id);
    Before(lines, at)[..RegionStart(Before(lines, at), id)] + After(lines, at)
  }

  lemma RemovePlaced(lines: seq<string>, id: string, at: Location, block: seq<string>, written: seq<string>, valid: string -> bool)
    requires at == LocateLines(lines, id) && written == MergeAt(lines, at, block) && AllClean(written)
    requires Shaped(Texts(block), BeginMarker(id), EndMarker(id))
    ensures Remove(JoinLines(written), id, valid) == Removed(Around(lines, id), valid)
  {
    PlacedReads(lines, id, at, block, written);
    RemoveKnown(JoinLines(written), id, Before(lines, at), RegionStart(Before(lines, at), id), block, After(lines, at), valid);
  }

  lemma RemoveMerged(document: string, id: string, e: Entry, valid: string -> bool)
    requires ValidId(id) && PrintableTimeouts(e) && AllClean(Written(document, id, e))
    ensures Remove(JoinLines(Written(document, id, e)), id, valid) == Removed(Around(SplitLines(document), id), valid)
  {
    BlockIsShaped(id, e);
    RemovePlaced(SplitLines(document), id, Locate(document, id), Block(id, e), Written(document, id, e), valid);
  }

  lemma RemoveManaged(document: string, id: string, valid: string -> bool)
    requires Locate(document, id).Managed?
    ensures Remove(document, id, valid)
         == Removed(Before(SplitLines(document), Locate(document, id))
                    + After(SplitLines(document), Locate(document, id)), valid)
  {
    TakeOutAt(SplitLines(document), Locate(document, id));
  }

  lemma TakeOutAt(lines: seq<string>, at: Location)
    requires Within(at, lines) && at.Managed?
    ensures ReplaceLines(lines, at.first, at.last, []) == Before(lines, at) + After(lines, at)
  {
  }

  lemma WholeBefore(lines: seq<string>, id: string)
    requires NoBegin(Before(lines, LocateLines(lines, id)), id)
    ensures Around(lines, id) == Before(lines, LocateLines(lines, id)) + After(lines, LocateLines(lines, id))
  {
    var before := Before(lines, LocateLines(lines, id));
    assert before[..|before|] == before;
  }

  /** A marker line is not blank, so cutting from it on is seen after trimming too. */
  lemma CutShows(before: seq<string>, kept: seq<string>, k: nat, id: string)
    requires k < |before| && Texts(before)[k] == BeginMarker(id)
    requires before == kept || before == kept + [""]
    ensures TrimTrailingBlanks(before[..k]) != kept
  {
    assert |BeginMarker(id)| > 0;
    BlankText();
    assert [""][0] == "" && Texts([""])[0] == TrimSpace("");
    assert Texts(before)[k] == TrimSpace(before[k]);
    assert k < |kept| && |TrimTrailingBlanks(before[..k])| <= k;
  }

  /**
   Removing what a first merge appended keeps the original lines, trailing blanks aside, if
   and only if no loose begin marker stood among them; otherwise the user's lines from that
   marker on go with it.
   */
  lemma RemoveKeepsAppendedExactly(lines: seq<string>, id: string)
    requires LocateLines(lines, id).Absent?
    ensures TrimTrailingBlanks(Around(lines, id)) == TrimTrailingBlanks(lines)
            <==> NoBegin(Before(lines, LocateLines(lines, id)), id)
  {
    var before := AppendBlock(lines, []);
    var k := RegionStart(before, id);
    AppendKeepsPrefix(lines);
    if k == |before| {
      TrimAgain(lines);
      WholeBefore(lines, id);
    } else {
      assert before[..k] + [] == before[..k];
      CutShows(before, TrimTrailingBlanks(lines), k, id);
    }
  }

  /**
   Removing what any successful merge wrote, exactly: what is left is the lines around the
   place of the merge, less those from a loose begin marker on. Without such a marker that
   is, after a first merge, the original lines with only trailing blank lines trimmed; after
   a refresh, whatever removal would have given before it; after a forced replacement, the
   lines around the foreign table, which does not come back.
   */
  lemma RemoveUndoesMerge(document: string, id: string, e: Entry, force: bool, valid: string -> bool)
    requires ValidId(id) && PrintableTimeouts(e) && AllClean(SplitLines(document))
    requires Merge(document, id, e, force, valid).Ok?
    ensures var lines, at := SplitLines(document), Locate(document, id);
            var result := Merge(document, id, e, force, valid).document;
            && Remove(result, id, valid) == Removed(Around(lines, id), valid)
            && (at.Managed? ==> Remove(result, id, valid) == Remove(document, id, valid))
            && (NoBegin(Before(lines, at), id) ==>
              && (at.Absent? ==> Remove(result, id, valid) == Removed(lines, valid))
              && (at.Foreign? ==> Remove(result, id, valid) == Removed(lines[..at.first] + lines[at.last + 1..], valid)))
  {
    var lines, at := SplitLines(document), Locate(document, id);
    MergeResult(document, id, e, force, valid);
    RemoveMerged(document, id, e, valid);
    if at.Managed? {
      ManagedIsExact(lines, id);
      WholeBefore(lines, id);
      RemoveManaged(document, id, valid);
    } else if NoBegin(Before(lines, at), id) {
      WholeBefore(lines, id);
      TrimAgain(lines);
    }
  }
}
