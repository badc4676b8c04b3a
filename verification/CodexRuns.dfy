/**
 Any sequence of merges and removals, for any number of projects, on one shared document
 (internal/codexconfig/merge.go:60-164).
 */
module CodexRuns {
  import opened CodexLines
  import opened CodexConfig
  import opened CodexMerge
  import opened CodexLayout

  datatype Op = Put(id: string, entry: Entry, force: bool) | Drop(id: string)

  /** The file after one operation: a failed operation writes nothing. */
  function Step(document: string, op: Op, valid: string -> bool): string {
    var outcome := Outcome(document, op, valid);
    if outcome.Ok? then outcome.document else document
  }

  function Outcome(document: string, op: Op, valid: string -> bool): CodexConfig.Outcome {
    match op
    case Put(id, e, force) => Merge(document, id, e, force, valid)
    case Drop(id) => Remove(document, id, valid)
  }

  /** Which projects are present, judged by what the operations reported. */
  function Present(m: map<string, Entry>, document: string, op: Op, valid: string -> bool): map<string, Entry> {
    if Outcome(document, op, valid).Err? then m
    else
      match op
      case Put(id, e, _) => m[id := e]
      case Drop(id) => m - {id}
  }

  function Run(document: string, m: map<string, Entry>, ops: seq<Op>, valid: string -> bool): (string, map<string, Entry>)
    decreases |ops|
  {
    if ops == [] then (document, m)
    else Run(Step(document, ops[0], valid), Present(m, document, ops[0], valid), ops[1..], valid)
  }

  datatype Layout = Layout(user: seq<string>, items: seq<Item>)

  function Lines(l: Layout): seq<string> { l.user + Flat(l.items) }

  predicate Unique(items: seq<Item>) {
    forall i, j :: 0 <= i < j < |items| && items[i].Region? && items[j].Region? ==> items[i].id != items[j].id
  }

  /** The regions are those of the present projects, one each. */
  predicate Shows(items: seq<Item>, m: map<string, Entry>) {
    && Unique(items)
    && (forall i :: 0 <= i < |items| && items[i].Region? ==> items[i].id in m && m[items[i].id] == items[i].entry)
    && (forall id :: id in m ==> !Lacks(items, id))
  }

  /** The first region of the project, or the length. */
  function IndexOf(items: seq<Item>, id: string): (k: nat)
    ensures k <= |items| && Lacks(items[..k], id)
    ensures k < |items| ==> IsRegionOf(items[k], id)
    ensures k == |items| <==> Lacks(items, id)
  {
    IndexFrom(items, 0, id)
  }

  function IndexFrom(items: seq<Item>, i: nat, id: string): (k: nat)
    requires i <= |items| && Lacks(items[..i], id)
    ensures i <= k <= |items| && Lacks(items[..k], id)
    ensures k < |items| ==> IsRegionOf(items[k], id)
    decreases |items| - i
  {
    if i == |items| || IsRegionOf(items[i], id) then i else IndexFrom(items, i + 1, id)
  }

  function Padding(l: Layout): seq<Item> { if Lines(l) == [] then [] else [Blank] }

  function Trimmed(l: Layout): Layout { Layout(TrimUser(l.user, l.items), TrimItems(l.items)) }

  function AfterPut(l: Layout, id: string, e: Entry): Layout {
    var k, t := IndexOf(l.items, id), Trimmed(l);
    if k < |l.items| then l.(items := l.items[k := Region(id, e)])
    else t.(items := t.items + Padding(t) + [Region(id, e)])
  }

  function AfterDrop(l: Layout, id: string): Layout {
    var k := IndexOf(l.items, id);
    if k < |l.items| then Trimmed(l.(items := l.items[..k] + l.items[k + 1..])) else l
  }

  // ---------------------------------------------------------------- lines of one step

  lemma ItemHasLines(item: Item)
    ensures |LinesOf(item)| > 0
  {
  }

  lemma PutOver(l: Layout, k: nat, id: string, e: Entry)
    requires k < |l.items|
    ensures var at := PlaceOf(l.user, l.items, k);
            Within(at, Lines(l)) ==> MergeAt(Lines(l), at, Block(id, e)) == Lines(l.(items := l.items[k := Region(id, e)]))
  {
    var items' := l.items[k := Region(id, e)];
    ItemHasLines(l.items[k]);
    SplitAtItem(l.user, l.items, k);
    SplitAtItem(l.user, items', k);
    assert items'[..k] == l.items[..k] && items'[k + 1..] == l.items[k + 1..];
    Splice(Upto(l.user, l.items, k), LinesOf(l.items[k]), Flat(l.items[k + 1..]), Block(id, e));
  }

  lemma PutLast(l: Layout, id: string, e: Entry)
    requires GoodItems(l.items)
    ensures AppendBlock(Lines(l), Block(id, e))
         == Lines(Trimmed(l).(items := Trimmed(l).items + Padding(Trimmed(l)) + [Region(id, e)]))
  {
    var t := Trimmed(l);
    TrimLayout(l.user, l.items);
    FlatSnoc(t.items + Padding(t), Region(id, e));
    FlatConcat(t.items, Padding(t));
    FlatOne(Blank);
    Appended(t.user, Flat(t.items), Flat(Padding(t)), Block(id, e));
  }

  lemma Appended(user: seq<string>, flat: seq<string>, pad: seq<string>, block: seq<string>)
    ensures user + flat + pad + block == user + (flat + pad + block)
    ensures pad == [] ==> user + flat + block == user + (flat + pad + block)
  {
  }

  lemma PutLines(l: Layout, id: string, e: Entry)
    requires GoodItems(l.items) && Clear(l.user, id) && GoodRegion(id, e)
    ensures MergeAt(Lines(l), LocateLines(Lines(l), id), Block(id, e)) == Lines(AfterPut(l, id, e))
  {
    var k := IndexOf(l.items, id);
    if k < |l.items| {
      RegionIsLocated(l.user, l.items, k, id);
      PutOver(l, k, id, e);
    } else {
      LackingIsAbsent(l.user, l.items, id);
      PutLast(l, id, e);
    }
  }

  lemma GoodWithout(items: seq<Item>, k: nat)
    requires k < |items| && GoodItems(items)
    ensures GoodItems(items[..k] + items[k + 1..])
  {
    var rest := items[..k] + items[k + 1..];
    forall i | 0 <= i < |rest| ensures GoodItem(rest[i]) {
      if i < k { assert rest[i] == items[i]; } else { assert rest[i] == items[i + 1]; }
    }
  }

  lemma CutOut(l: Layout, k: nat)
    requires k < |l.items|
    ensures var at := PlaceOf(l.user, l.items, k);
            Within(at, Lines(l)) ==>
            ReplaceLines(Lines(l), at.first, at.last, []) == Lines(l.(items := l.items[..k] + l.items[k + 1..]))
  {
    ItemHasLines(l.items[k]);
    SplitAtItem(l.user, l.items, k);
    FlatConcat(l.items[..k], l.items[k + 1..]);
    Splice(Upto(l.user, l.items, k), LinesOf(l.items[k]), Flat(l.items[k + 1..]), []);
    Dropped(l.user, Flat(l.items[..k]), Flat(l.items[k + 1..]));
  }

  lemma Dropped(user: seq<string>, a: seq<string>, b: seq<string>)
    ensures user + a + [] + b == user + (a + b)
  {
  }

  lemma CutAndTrim(l: Layout, k: nat)
    requires k < |l.items| && GoodItems(l.items)
    ensures var at := PlaceOf(l.user, l.items, k);
            Within(at, Lines(l)) ==>
            TrimTrailingBlanks(ReplaceLines(Lines(l), at.first, at.last, []))
            == Lines(Trimmed(l.(items := l.items[..k] + l.items[k + 1..])))
  {
    CutOut(l, k);
    GoodWithout(l.items, k);
    TrimLayout(l.user, l.items[..k] + l.items[k + 1..]);
  }

  lemma DropPresent(l: Layout, id: string)
    requires GoodItems(l.items) && Clear(l.user, id) && !Lacks(l.items, id)
    ensures var at := LocateLines(Lines(l), id);
            at.Managed? && TrimTrailingBlanks(ReplaceLines(Lines(l), at.first, at.last, [])) == Lines(AfterDrop(l, id))
  {
    var k := IndexOf(l.items, id);
    RegionIsLocated(l.user, l.items, k, id);
    CutAndTrim(l, k);
  }

  lemma DropAbsent(l: Layout, id: string)
    requires GoodItems(l.items) && Clear(l.user, id) && ValidId(id) && Lacks(l.items, id)
    ensures LocateLines(Lines(l), id).Absent? && AfterDrop(l, id) == l
  {
    LackingIsAbsent(l.user, l.items, id);
  }

  // ---------------------------------------------------------------- the layout of one step

  lemma ShowsOver(items: seq<Item>, m: map<string, Entry>, k: nat, id: string, e: Entry)
    requires Shows(items, m) && k < |items| && IsRegionOf(items[k], id)
    ensures Shows(items[k := Region(id, e)], m[id := e])
  {
    var items' := items[k := Region(id, e)];
    forall x | x in m[id := e] ensures !Lacks(items', x) {
      if x == id {
        assert IsRegionOf(items'[k], id);
      } else {
        var j := IndexOf(items, x);
        assert IsRegionOf(items'[j], x);
      }
    }
  }

  lemma ShowsMore(items: seq<Item>, m: map<string, Entry>, pad: seq<Item>, id: string, e: Entry)
    requires Shows(items, m) && Lacks(items, id) && (pad == [] || pad == [Blank])
    ensures Shows(items + pad + [Region(id, e)], m[id := e])
  {
    var items' := items + pad + [Region(id, e)];
    var n := |items'| - 1;
    forall i | 0 <= i < n && items'[i].Region? ensures i < |items| && items'[i] == items[i] && items[i].id != id {
      assert i < |items|;
      assert !IsRegionOf(items[i], id);
    }
    forall x | x in m[id := e] ensures !Lacks(items', x) {
      if x == id {
        assert IsRegionOf(items'[n], id);
      } else {
        var j := IndexOf(items, x);
        assert IsRegionOf(items'[j], x);
      }
    }
  }

  lemma ShowsTrimmed(items: seq<Item>, m: map<string, Entry>)
    requires Shows(items, m)
    ensures Shows(TrimItems(items), m)
  {
    var t := TrimItems(items);
    forall x | x in m ensures !Lacks(t, x) {
      var j := IndexOf(items, x);
      assert j < |t|;
      assert IsRegionOf(t[j], x);
    }
  }

  lemma ShowsWithout(items: seq<Item>, m: map<string, Entry>, k: nat, id: string)
    requires Shows(items, m) && k < |items| && IsRegionOf(items[k], id)
    ensures Shows(items[..k] + items[k + 1..], m - {id})
  {
    var rest := items[..k] + items[k + 1..];
    forall i | 0 <= i < |rest| ensures rest[i] == items[if i < k then i else i + 1] {}
    forall x | x in m && x != id ensures !Lacks(rest, x) {
      var j := IndexOf(items, x);
      assert j != k;
      assert IsRegionOf(rest[if j < k then j else j - 1], x);
    }
  }

  // ---------------------------------------------------------------- whole documents

  /** The document is the user's lines, blank trailing lines aside, and then one region per present project. */
  predicate Laid(document: string, original: seq<string>, l: Layout, m: map<string, Entry>) {
    && SplitLines(document) == Lines(l) && AllClean(Lines(l))
    && GoodItems(l.items) && Shows(l.items, m)
    && l.user <= original && BlankFrom(original, |l.user|)
  }

  /** The same, before anything is said of the bytes. */
  predicate Arranged(original: seq<string>, l: Layout, m: map<string, Entry>) {
    GoodItems(l.items) && Shows(l.items, m) && l.user <= original && BlankFrom(original, |l.user|)
  }

  lemma TrimmedIsArranged(original: seq<string>, l: Layout, m: map<string, Entry>)
    requires Arranged(original, l, m)
    ensures Arranged(original, Trimmed(l), m)
  {
    var t := Trimmed(l);
    ShowsTrimmed(l.items, m);
    forall i | |t.user| <= i < |original| ensures IsBlank(original[i]) {
      assert i < |l.user| ==> original[i] == l.user[i];
    }
  }

  lemma PutIsArranged(original: seq<string>, l: Layout, m: map<string, Entry>, id: string, e: Entry)
    requires Arranged(original, l, m) && GoodRegion(id, e)
    ensures Arranged(original, AfterPut(l, id, e), m[id := e])
  {
    var k := IndexOf(l.items, id);
    if k < |l.items| {
      ShowsOver(l.items, m, k, id, e);
    } else {
      TrimmedIsArranged(original, l, m);
      ShowsMore(Trimmed(l).items, m, Padding(Trimmed(l)), id, e);
    }
  }

  lemma CutIsArranged(original: seq<string>, l: Layout, m: map<string, Entry>, k: nat, id: string)
    requires Arranged(original, l, m) && k < |l.items| && IsRegionOf(l.items[k], id)
    ensures Arranged(original, l.(items := l.items[..k] + l.items[k + 1..]), m - {id})
  {
    ShowsWithout(l.items, m, k, id);
    GoodWithout(l.items, k);
  }

  lemma DropIsArranged(original: seq<string>, l: Layout, m: map<string, Entry>, id: string)
    requires Arranged(original, l, m) && !Lacks(l.items, id)
    ensures Arranged(original, AfterDrop(l, id), m - {id})
  {
    var k := IndexOf(l.items, id);
    CutIsArranged(original, l, m, k, id);
    TrimmedIsArranged(original, l.(items := l.items[..k] + l.items[k + 1..]), m - {id});
  }

  lemma UserIsClear(original: seq<string>, l: Layout, id: string)
    requires Clear(original, id) && l.user <= original
    ensures Clear(l.user, id)
  {
    ClearPrefix(original, |l.user|, id);
    assert original[..|l.user|] == l.user;
  }

  lemma PutLaid(document: string, original: seq<string>, l: Layout, m: map<string, Entry>,
                id: string, e: Entry, force: bool, valid: string -> bool)
    requires Laid(document, original, l, m) && Clear(original, id) && GoodRegion(id, e)
    requires Merge(document, id, e, force, valid).Ok?
    ensures Laid(Merge(document, id, e, force, valid).document, original, AfterPut(l, id, e), m[id := e])
  {
    UserIsClear(original, l, id);
    PutLines(l, id, e);
    MergeResult(document, id, e, force, valid);
    PutIsArranged(original, l, m, id, e);
  }

  lemma DropResult(document: string, id: string, valid: string -> bool, kept: seq<string>)
    requires AllClean(SplitLines(document)) && Locate(document, id).Managed? && Remove(document, id, valid).Ok?
    requires kept == TrimTrailingBlanks(ReplaceLines(SplitLines(document), Locate(document, id).first,
                                                     Locate(document, id).last, []))
    ensures AllClean(kept) && Remove(document, id, valid) == Ok(JoinLines(kept), true)
    ensures SplitLines(JoinLines(kept)) == kept
  {
    CutIsClean(SplitLines(document), Locate(document, id).first, Locate(document, id).last);
    ReadBack(kept);
  }

  lemma CutIsClean(lines: seq<string>, first: nat, last: nat)
    requires first <= last < |lines| && AllClean(lines)
    ensures AllClean(TrimTrailingBlanks(ReplaceLines(lines, first, last, [])))
  {
    ConcatIsClean(lines[..first], [], lines[last + 1..]);
  }

  lemma DropLaid(document: string, original: seq<string>, l: Layout, m: map<string, Entry>, id: string, valid: string -> bool)
    requires Laid(document, original, l, m) && Clear(original, id) && ValidId(id)
    requires Remove(document, id, valid).Ok?
    ensures Laid(Remove(document, id, valid).document, original, AfterDrop(l, id), m - {id})
  {
    UserIsClear(original, l, id);
    if Lacks(l.items, id) {
      DropAbsent(l, id);
      LackingIsNotPresent(l.items, m, id);
    } else {
      DropIsArranged(original, l, m, id);
      DropPresent(l, id);
      DropResult(document, id, valid, Lines(AfterDrop(l, id)));
    }
  }

  lemma LackingIsNotPresent(items: seq<Item>, m: map<string, Entry>, id: string)
    requires Shows(items, m) && Lacks(items, id)
    ensures m - {id} == m
  {
  }

  predicate GoodOp(op: Op) {
    match op case Put(id, e, _) => GoodRegion(id, e) case Drop(id) => ValidId(id)
  }

  lemma StepLaid(document: string, original: seq<string>, l: Layout, m: map<string, Entry>, op: Op, valid: string -> bool)
    returns (l': Layout)
    requires Laid(document, original, l, m) && GoodOp(op) && Clear(original, op.id)
    ensures Laid(Step(document, op, valid), original, l', Present(m, document, op, valid))
  {
    if Outcome(document, op, valid).Err? { return l; }
    match op
    case Put(id, e, force) =>
      PutLaid(document, original, l, m, id, e, force, valid);
      return AfterPut(l, id, e);
    case Drop(id) =>
      DropLaid(document, original, l, m, id, valid);
      return AfterDrop(l, id);
  }

  lemma {:induction false} RunLaid(document: string, original: seq<string>, l: Layout, m: map<string, Entry>,
                                   ops: seq<Op>, valid: string -> bool) returns (l': Layout)
    requires Laid(document, original, l, m)
    requires forall i :: 0 <= i < |ops| ==> GoodOp(ops[i]) && Clear(original, ops[i].id)
    ensures var end := Run(document, m, ops, valid); Laid(end.0, original, l', end.1)
    decreases |ops|
  {
    if ops == [] { return l; }
    var next := StepLaid(document, original, l, m, ops[0], valid);
    l' := RunLaid(Step(document, ops[0], valid), original, next, Present(m, document, ops[0], valid), ops[1..], valid);
  }

  /** The project is found at exactly its own rendered lines, or is absent. */
  predicate FoundExactly(document: string, m: map<string, Entry>, id: string) {
    var at, lines := Locate(document, id), SplitLines(document);
    if id in m then at.Managed? && Within(at, lines) && lines[at.first..at.last + 1] == Block(id, m[id])
    else at.Absent?
  }

  lemma LaidIsExact(document: string, original: seq<string>, l: Layout, m: map<string, Entry>, id: string)
    requires Laid(document, original, l, m) && Clear(original, id) && ValidId(id)
    ensures FoundExactly(document, m, id)
  {
    UserIsClear(original, l, id);
    var k := IndexOf(l.items, id);
    if k < |l.items| {
      RegionIsLocated(l.user, l.items, k, id);
      SplitAtItem(l.user, l.items, k);
      ItemHasLines(l.items[k]);
      Middle(Upto(l.user, l.items, k), LinesOf(l.items[k]), Flat(l.items[k + 1..]));
    } else {
      LackingIsAbsent(l.user, l.items, id);
    }
  }

  lemma Middle(before: seq<string>, block: seq<string>, after: seq<string>)
    ensures (before + block + after)[|before|..|before| + |block|] == block
  {
  }

  /**
   On a document that holds nothing of the projects' own, any sequence of merges and removals
   leaves the user's lines in their original order, trailing blank lines aside, followed by
   disjoint regions, one per present project; and each project is located at exactly its own
   region, or nowhere.
   */
  lemma RegionsStayExact(document: string, ops: seq<Op>, valid: string -> bool) returns (l: Layout)
    requires AllClean(SplitLines(document))
    requires forall i :: 0 <= i < |ops| ==> GoodOp(ops[i]) && Clear(SplitLines(document), ops[i].id)
    ensures var end := Run(document, map[], ops, valid);
            && Laid(end.0, SplitLines(document), l, end.1)
            && forall i :: 0 <= i < |ops| ==> FoundExactly(end.0, end.1, ops[i].id)
  {
    var original := SplitLines(document);
    var start := Layout(original, []);
    assert Lines(start) == original;
    l := RunLaid(document, original, start, map[], ops, valid);
    var end := Run(document, map[], ops, valid);
    forall i | 0 <= i < |ops| ensures FoundExactly(end.0, end.1, ops[i].id) {
      assert GoodOp(ops[i]);
      LaidIsExact(end.0, original, l, end.1, ops[i].id);
    }
  }
}
