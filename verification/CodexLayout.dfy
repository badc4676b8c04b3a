/** A document as the user's own lines followed by blank lines and project regions. */
module CodexLayout {
  import opened Text
  import opened Toml
  import opened CodexLines
  import opened CodexConfig
  import opened CodexRegions
  import opened CodexMerge
  import opened CodexNeighbours

  datatype Item = Blank | Region(id: string, entry: Entry)

  function LinesOf(item: Item): seq<string> {
    match item case Blank => [""] case Region(id, e) => Block(id, e)
  }

  function Flat(items: seq<Item>): seq<string> {
    if items == [] then [] else LinesOf(items[0]) + Flat(items[1..])
  }

  /** A region some merge can have written. */
  predicate GoodRegion(id: string, e: Entry) { ValidId(id) && PrintableTimeouts(e) && e.name == EntryName(id) }

  predicate GoodItem(item: Item) { item.Region? ==> GoodRegion(item.id, item.entry) }

  predicate GoodItems(items: seq<Item>) { forall i :: 0 <= i < |items| ==> GoodItem(items[i]) }

  predicate IsRegionOf(item: Item, id: string) { item.Region? && item.id == id }

  predicate Lacks(items: seq<Item>, id: string) { forall i :: 0 <= i < |items| ==> !IsRegionOf(items[i], id) }

  lemma {:induction false} FlatConcat(a: seq<Item>, b: seq<Item>)
    ensures Flat(a + b) == Flat(a) + Flat(b)
    decreases |a|
  {
    if a == [] {
      assert a + b == b;
    } else {
      assert (a + b)[0] == a[0] && (a + b)[1..] == a[1..] + b;
      FlatConcat(a[1..], b);
    }
  }

  lemma FlatOne(item: Item)
    ensures Flat([item]) == LinesOf(item)
  {
    assert [item][1..] == [];
  }

  lemma FlatSnoc(items: seq<Item>, item: Item)
    ensures Flat(items + [item]) == Flat(items) + LinesOf(item)
  {
    FlatConcat(items, [item]);
    FlatOne(item);
  }

  lemma FlatSplit(items: seq<Item>, n: nat)
    requires n <= |items|
    ensures Flat(items) == Flat(items[..n]) + Flat(items[n..])
  {
    TakeDrop(items, n);
    FlatConcat(items[..n], items[n..]);
  }

  lemma TakeDrop<T>(s: seq<T>, n: nat)
    requires n <= |s|
    ensures s[..n] + s[n..] == s
  {
  }

  lemma FlatHead(items: seq<Item>, k: nat)
    requires k < |items|
    ensures Flat(items[k..]) == LinesOf(items[k]) + Flat(items[k + 1..])
  {
    assert items[k..][0] == items[k] && items[k..][1..] == items[k + 1..];
  }

  lemma Associate<T>(a: seq<T>, b: seq<T>, c: seq<T>)
    ensures a + (b + c) == a + b + c
  {
  }

  lemma FlatAround(items: seq<Item>, k: nat)
    requires k < |items|
    ensures Flat(items) == Flat(items[..k]) + LinesOf(items[k]) + Flat(items[k + 1..])
  {
    FlatSplit(items, k);
    FlatHead(items, k);
    Associate(Flat(items[..k]), LinesOf(items[k]), Flat(items[k + 1..]));
  }

  lemma Regroup<T>(a: seq<T>, b: seq<T>, c: seq<T>, d: seq<T>)
    ensures a + (b + c + d) == (a + b) + c + d
  {
  }

  // ---------------------------------------------------------------- where a project is found

  /** Lines in which nothing belongs to the project. */
  predicate Clear(lines: seq<string>, id: string) {
    && AllQuiet(lines, id)
    && NoInline(lines, EntryName(id), false)
    && forall i :: 0 <= i < |lines| ==> !IsServer(HeadersOf(lines)[i], EntryName(id))
  }

  lemma ClearIsAbsent(lines: seq<string>, id: string)
    requires Clear(lines, id)
    ensures LocateLines(lines, id) == Absent
  {
    QuietHasNoBegin(lines, id);
    NoneFound(Texts(lines), BeginMarker(id));
  }

  lemma {:induction false} InlinePrefix(headers: seq<Path>, keys: seq<Option<string>>, n: nat, i: nat, name: string, s: bool)
    requires |headers| == |keys| && i <= n <= |headers|
    requires FindInline(headers, keys, i, name, s) == |headers|
    ensures FindInline(headers[..n], keys[..n], i, name, s) == n
    decreases n - i
  {
    if i < n { InlinePrefix(headers, keys, n, i + 1, name, InServers(headers[i], s)); }
  }

  lemma MapPrefix<A, B>(f: A -> B, s: seq<A>, n: nat)
    requires n <= |s|
    ensures Map(f, s[..n]) == Map(f, s)[..n]
  {
  }

  lemma ClearPrefix(lines: seq<string>, n: nat, id: string)
    requires n <= |lines| && Clear(lines, id)
    ensures Clear(lines[..n], id)
  {
    MapPrefix(ParseTableHeader, lines, n);
    MapPrefix(ParseKeyName, lines, n);
    InlinePrefix(HeadersOf(lines), KeysIn(lines), n, 0, EntryName(id), false);
  }

  lemma BlankIsQuiet(id: string)
    ensures AllQuiet([""], id)
  {
    assert BeginMarker(id)[0] == '#' && EndMarker(id)[0] == '#';
  }

  lemma ItemIsForeign(item: Item, id: string)
    requires GoodItem(item) && ValidId(id) && !IsRegionOf(item, id)
    ensures AllQuiet(LinesOf(item), id) && Harmless(LinesOf(item), EntryName(id))
  {
    match item
    case Blank =>
      BlankIsQuiet(id);
      BlankIsHarmless(EntryName(id));
    case Region(other, e) =>
      BlockIsQuiet(other, e, id);
      BlockIsHarmless(other, e, id);
  }

  lemma NothingIsHarmless(name: string)
    ensures Harmless([], name)
  {
  }

  lemma {:induction false} ItemsAreForeign(items: seq<Item>, id: string)
    requires GoodItems(items) && ValidId(id) && Lacks(items, id)
    ensures AllQuiet(Flat(items), id) && Harmless(Flat(items), EntryName(id))
  {
    if items == [] {
      NothingIsHarmless(EntryName(id));
    } else {
      ItemIsForeign(items[0], id);
      ItemsAreForeign(items[1..], id);
      QuietConcat(LinesOf(items[0]), Flat(items[1..]), id);
      HarmlessConcat(LinesOf(items[0]), Flat(items[1..]), EntryName(id));
    }
  }

  lemma ClearThenHarmless(user: seq<string>, rest: seq<string>, id: string)
    requires Clear(user, id) && AllQuiet(rest, id) && Harmless(rest, EntryName(id))
    ensures Clear(user + rest, id)
  {
    QuietConcat(user, rest, id);
    NoInlineConcat(user, rest, EntryName(id), false);
    MapConcat(ParseTableHeader, user, rest);
  }

  /** A project with no region in the layout is absent from the document. */
  lemma LackingIsAbsent(user: seq<string>, items: seq<Item>, id: string)
    requires Clear(user, id) && GoodItems(items) && ValidId(id) && Lacks(items, id)
    ensures LocateLines(user + Flat(items), id) == Absent
    ensures AllQuiet(user + Flat(items), id)
  {
    ItemsAreForeign(items, id);
    ClearThenHarmless(user, Flat(items), id);
    ClearIsAbsent(user + Flat(items), id);
  }

  /** The lines before the k-th item. */
  function Upto(user: seq<string>, items: seq<Item>, k: nat): seq<string>
    requires k <= |items|
  {
    user + Flat(items[..k])
  }

  lemma SplitAtItem(user: seq<string>, items: seq<Item>, k: nat)
    requires k < |items|
    ensures user + Flat(items) == Upto(user, items, k) + LinesOf(items[k]) + Flat(items[k + 1..])
  {
    FlatAround(items, k);
    Regroup(user, Flat(items[..k]), LinesOf(items[k]), Flat(items[k + 1..]));
  }

  function PlaceOf(user: seq<string>, items: seq<Item>, k: nat): Location
    requires k < |items|
  {
    var start := |Upto(user, items, k)|;
    Managed(start, start + |LinesOf(items[k])| - 1)
  }

  lemma BeforeIsQuiet(user: seq<string>, items: seq<Item>, k: nat, id: string)
    requires k <= |items| && Lacks(items[..k], id) && ValidId(id)
    requires Clear(user, id) && GoodItems(items)
    ensures NoBegin(Upto(user, items, k), id)
  {
    LackingIsAbsent(user, items[..k], id);
    QuietHasNoBegin(Upto(user, items, k), id);
  }

  lemma QuietThenRegion(before: seq<string>, id: string, block: seq<string>, after: seq<string>)
    requires NoBegin(before, id) && Shaped(Texts(block), BeginMarker(id), EndMarker(id))
    ensures LocateLines(before + block + after, id) == Managed(|before|, |before| + |block| - 1)
  {
    NoneFound(Texts(before), BeginMarker(id));
    RegionOfPlaced(before, id, block, after);
    RegionIsLocation(before + block + after, id);
  }

  /** A project with a region in the layout is located at exactly the lines of that region. */
  lemma RegionIsLocated(user: seq<string>, items: seq<Item>, k: nat, id: string)
    requires k < |items| && IsRegionOf(items[k], id) && Lacks(items[..k], id)
    requires Clear(user, id) && GoodItems(items)
    ensures LocateLines(user + Flat(items), id) == PlaceOf(user, items, k)
  {
    assert GoodItem(items[k]);
    BeforeIsQuiet(user, items, k, id);
    BlockIsShaped(id, items[k].entry);
    QuietThenRegion(Upto(user, items, k), id, LinesOf(items[k]), Flat(items[k + 1..]));
    SplitAtItem(user, items, k);
  }

  // ---------------------------------------------------------------- trailing blanks

  function TrimItems(items: seq<Item>): (r: seq<Item>)
    ensures r <= items
    ensures r != [] ==> r[|r| - 1].Region?
    ensures forall i :: |r| <= i < |items| ==> items[i] == Blank
  {
    if items != [] && items[|items| - 1] == Blank then TrimItems(items[..|items| - 1]) else items
  }

  function TrimUser(user: seq<string>, items: seq<Item>): (r: seq<string>)
    ensures r <= user
    ensures BlankFrom(user, |r|)
  {
    if TrimItems(items) == [] then TrimTrailingBlanks(user) else user
  }

  lemma {:induction false} BlanksAreBlank(items: seq<Item>)
    requires forall i :: 0 <= i < |items| ==> items[i] == Blank
    ensures BlankFrom(Flat(items), 0)
  {
    if items != [] {
      BlankLine();
      BlanksAreBlank(items[1..]);
      BlankConcat([""], Flat(items[1..]));
    }
  }

  lemma BlankConcat(a: seq<string>, b: seq<string>)
    requires BlankFrom(a, 0) && BlankFrom(b, 0)
    ensures BlankFrom(a + b, 0)
  {
  }

  lemma BlankTail(a: seq<string>, n: nat, b: seq<string>)
    requires n <= |a| && BlankFrom(a, n) && BlankFrom(b, 0)
    ensures BlankFrom(a + b, n)
  {
  }

  lemma RegionEndsSolid(id: string, e: Entry)
    requires ValidId(id)
    ensures |Block(id, e)| > 0 && !IsBlank(Block(id, e)[|Block(id, e)| - 1])
  {
    MarkersAreFixed(id);
    assert EndMarker(id) != "";
  }

  lemma SnocEndsSolid(init: seq<Item>, id: string, e: Entry)
    requires ValidId(id)
    ensures |Flat(init + [Region(id, e)])| > 0 && SolidEnd(Flat(init + [Region(id, e)]))
  {
    FlatSnoc(init, Region(id, e));
    RegionEndsSolid(id, e);
    EndsLike(Flat(init), Block(id, e));
  }

  lemma FlatEndsSolid(items: seq<Item>)
    requires items != [] && items[|items| - 1].Region? && ValidId(items[|items| - 1].id)
    ensures |Flat(items)| > 0 && SolidEnd(Flat(items))
  {
    var n := |items| - 1;
    assert items == items[..n] + [Region(items[n].id, items[n].entry)];
    SnocEndsSolid(items[..n], items[n].id, items[n].entry);
  }

  lemma EndsLike(a: seq<string>, b: seq<string>)
    requires |b| > 0 && !IsBlank(b[|b| - 1])
    ensures |a + b| > 0 && SolidEnd(a + b)
  {
    assert |a + b| > 0;
  }

  lemma SolidAfter(a: seq<string>, b: seq<string>)
    requires |b| > 0 && SolidEnd(b)
    ensures SolidEnd(a + b)
  {
  }

  /** Trimming a document's trailing blank lines trims its layout. */
  lemma TrimLayout(user: seq<string>, items: seq<Item>)
    requires GoodItems(items)
    ensures TrimTrailingBlanks(user + Flat(items)) == TrimUser(user, items) + Flat(TrimItems(items))
  {
    var kept := TrimItems(items);
    var dropped := items[|kept|..];
    assert items == kept + dropped;
    FlatConcat(kept, dropped);
    BlanksAreBlank(dropped);
    if kept == [] {
      TrimBlankTail(user, Flat(dropped));
    } else {
      assert GoodItem(items[|kept| - 1]);
      FlatEndsSolid(kept);
      TrimSolid(user, Flat(kept), Flat(dropped));
    }
  }

  lemma TrimBlankTail(user: seq<string>, blanks: seq<string>)
    requires BlankFrom(blanks, 0)
    ensures TrimTrailingBlanks(user + ([] + blanks)) == TrimTrailingBlanks(user) + []
  {
    var kept := TrimTrailingBlanks(user);
    BlankTail(user, |kept|, blanks);
    assert user + ([] + blanks) == user + blanks;
    TrimIsUnique(user + blanks, kept);
  }

  lemma TrimSolid(user: seq<string>, solid: seq<string>, blanks: seq<string>)
    requires |solid| > 0 && SolidEnd(solid) && BlankFrom(blanks, 0)
    ensures TrimTrailingBlanks(user + (solid + blanks)) == user + solid
  {
    assert user + (solid + blanks) == (user + solid) + blanks;
    BlankTail(user + solid, |user + solid|, blanks);
    SolidAfter(user, solid);
    TrimIsUnique(user + (solid + blanks), user + solid);
  }
}
