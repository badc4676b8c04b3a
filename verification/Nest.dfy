/** Innermost containers by a stack (spikes/symbol-backend-evaluation/engines/treesitter.go:221-243). */
module Nest {
  datatype Symbol = Symbol(name: string, start: int, end: int, container: string)

  /** The sort order: by start, the longer range first. */
  predicate Less(x: Symbol, y: Symbol) { x.start < y.start || (x.start == y.start && x.end > y.end) }

  predicate Ordered(s: seq<Symbol>) { forall i, j :: 0 <= i < j < |s| ==> !Less(s[j], s[i]) }

  // ---------------------------------------------------------------- a stable sort

  /** Behind every element it is not less than. */
  function Insert(s: seq<Symbol>, x: Symbol): (r: seq<Symbol>)
    ensures |r| == |s| + 1
  {
    if |s| > 0 && Less(x, s[|s| - 1]) then Insert(s[..|s| - 1], x) + [s[|s| - 1]] else s + [x]
  }

  /** sort.SliceStable. */
  function StableSort(s: seq<Symbol>): (r: seq<Symbol>)
    ensures |r| == |s|
  {
    if |s| == 0 then [] else Insert(StableSort(s[..|s| - 1]), s[|s| - 1])
  }

  lemma {:induction false} InsertCounts(s: seq<Symbol>, x: Symbol)
    ensures multiset(Insert(s, x)) == multiset(s) + multiset{x}
    decreases |s|
  {
    if |s| > 0 && Less(x, s[|s| - 1]) {
      InsertCounts(s[..|s| - 1], x);
      assert s == s[..|s| - 1] + [s[|s| - 1]];
    }
  }

  predicate NoneAfter(s: seq<Symbol>, last: Symbol) { forall i :: 0 <= i < |s| ==> !Less(last, s[i]) }

  lemma {:induction false} InsertStaysBefore(s: seq<Symbol>, x: Symbol, last: Symbol)
    requires NoneAfter(s, last) && !Less(last, x)
    ensures NoneAfter(Insert(s, x), last)
    decreases |s|
  {
    if |s| > 0 && Less(x, s[|s| - 1]) { InsertStaysBefore(s[..|s| - 1], x, last); }
  }

  lemma OrderedSnoc(s: seq<Symbol>, last: Symbol)
    requires Ordered(s) && NoneAfter(s, last)
    ensures Ordered(s + [last])
  {
  }

  lemma LastIsGreatest(s: seq<Symbol>, x: Symbol)
    requires Ordered(s) && |s| > 0 && !Less(x, s[|s| - 1])
    ensures NoneAfter(s, x)
  {
    forall i | 0 <= i < |s| ensures !Less(x, s[i]) {
      if i < |s| - 1 { assert !Less(s[|s| - 1], s[i]); }
    }
  }

  lemma {:induction false} InsertOrders(s: seq<Symbol>, x: Symbol)
    requires Ordered(s)
    ensures Ordered(Insert(s, x))
    decreases |s|
  {
    if |s| > 0 && Less(x, s[|s| - 1]) {
      var init, last := s[..|s| - 1], s[|s| - 1];
      InsertOrders(init, x);
      InsertStaysBefore(init, x, last);
      OrderedSnoc(Insert(init, x), last);
    } else {
      if |s| > 0 { LastIsGreatest(s, x); }
      OrderedSnoc(s, x);
    }
  }

  /** The symbols of one range, in order. */
  function OfRange(s: seq<Symbol>, start: int, end: int): seq<Symbol> {
    if |s| == 0 then []
    else
      var rest := OfRange(s[..|s| - 1], start, end);
      if s[|s| - 1].start == start && s[|s| - 1].end == end then rest + [s[|s| - 1]] else rest
  }

  lemma {:induction false} InsertIsStable(s: seq<Symbol>, x: Symbol, start: int, end: int)
    ensures OfRange(Insert(s, x), start, end) == OfRange(s + [x], start, end)
    decreases |s|
  {
    assert (s + [x])[..|s|] == s;
    if |s| > 0 && Less(x, s[|s| - 1]) {
      var init, last := s[..|s| - 1], s[|s| - 1];
      InsertIsStable(init, x, start, end);
      assert (Insert(init, x) + [last])[..|Insert(init, x)|] == Insert(init, x);
      assert (init + [x])[..|init|] == init;
    }
  }

  lemma {:induction false} SortOrders(s: seq<Symbol>)
    ensures Ordered(StableSort(s))
    decreases |s|
  {
    if |s| > 0 {
      SortOrders(s[..|s| - 1]);
      InsertOrders(StableSort(s[..|s| - 1]), s[|s| - 1]);
    }
  }

  lemma {:induction false} SortCounts(s: seq<Symbol>)
    ensures multiset(StableSort(s)) == multiset(s)
    decreases |s|
  {
    if |s| > 0 {
      var init, last := s[..|s| - 1], s[|s| - 1];
      SortCounts(init);
      InsertCounts(StableSort(init), last);
      assert s == init + [last];
    }
  }

  /** The sort keeps symbols of equal range in their order. */
  lemma {:induction false} SortIsStable(s: seq<Symbol>, start: int, end: int)
    ensures OfRange(StableSort(s), start, end) == OfRange(s, start, end)
    decreases |s|
  {
    if |s| > 0 {
      var init, last := s[..|s| - 1], s[|s| - 1];
      SortIsStable(init, start, end);
      InsertIsStable(StableSort(init), last, start, end);
      OfRangeSnoc(StableSort(init), last, start, end);
    }
  }

  lemma OfRangeSnoc(s: seq<Symbol>, x: Symbol, start: int, end: int)
    ensures OfRange(s + [x], start, end)
         == if x.start == start && x.end == end then OfRange(s, start, end) + [x] else OfRange(s, start, end)
  {
    assert (s + [x])[..|s|] == s;
  }

  // ---------------------------------------------------------------- the stack

  /** The stack, as indices, once every range that ended by `start` is popped. */
  function Pop(s: seq<Symbol>, stack: seq<nat>, start: int): (r: seq<nat>)
    requires forall k :: 0 <= k < |stack| ==> stack[k] < |s|
    ensures r <= stack
  {
    if |stack| > 0 && start >= s[stack[|stack| - 1]].end then Pop(s, stack[..|stack| - 1], start) else stack
  }

  /** The stack before the j-th symbol. */
  function Stack(s: seq<Symbol>, j: nat): (r: seq<nat>)
    requires j <= |s|
    ensures forall k :: 0 <= k < |r| ==> r[k] < j
  {
    if j == 0 then [] else Pop(s, Stack(s, j - 1), s[j - 1].start) + [j - 1]
  }

  /** The index on top when the j-th symbol is reached, or -1. */
  function Top(s: seq<Symbol>, j: nat): (i: int)
    requires j < |s|
    ensures -1 <= i < j
  {
    var p := Pop(s, Stack(s, j), s[j].start);
    if |p| == 0 then -1 else p[|p| - 1]
  }

  /** A symbol with the container its top gives it; without one it keeps what it had. */
  function Placed(s: seq<Symbol>, j: nat, i: int): Symbol
    requires j < |s| && -1 <= i < |s|
  {
    if i < 0 then s[j] else s[j].(container := s[i].name)
  }

  function Nested(s: seq<Symbol>): (r: seq<Symbol>)
    ensures |r| == |s|
  {
    seq(|s|, j requires 0 <= j < |s| => Placed(s, j, Top(s, j)))
  }

  method Overwrite(symbols: array<Symbol>, s: seq<Symbol>)
    requires |s| == symbols.Length
    modifies symbols
    ensures symbols[..] == s
  {
    for i := 0 to symbols.Length
      invariant symbols[..i] == s[..i]
    {
      symbols[i] := s[i];
    }
  }

  /** The values on the stack are those of the symbols at these indices, as far as the loop looks. */
  ghost predicate Mirrors(stack: seq<Symbol>, at: seq<nat>, s: seq<Symbol>) {
    && |stack| == |at|
    && forall k :: 0 <= k < |at| ==> at[k] < |s| && stack[k].name == s[at[k]].name && stack[k].end == s[at[k]].end
  }

  /** The inner loop. */
  method PopEnded(stack: seq<Symbol>, ghost at: seq<nat>, ghost s: seq<Symbol>, start: int)
    returns (left: seq<Symbol>, ghost leftAt: seq<nat>)
    requires Mirrors(stack, at, s)
    ensures Mirrors(left, leftAt, s) && leftAt == Pop(s, at, start)
  {
    left, leftAt := stack, at;
    while |left| > 0 && start >= left[|left| - 1].end
      invariant Mirrors(left, leftAt, s)
      invariant Pop(s, leftAt, start) == Pop(s, at, start)
    {
      left, leftAt := left[..|left| - 1], leftAt[..|leftAt| - 1];
    }
  }

  lemma StackStep(s: seq<Symbol>, j: nat, stack: seq<Symbol>, at: seq<nat>, x: Symbol)
    requires j < |s| && Mirrors(stack, at, s) && at == Pop(s, Stack(s, j), s[j].start)
    requires x.name == s[j].name && x.end == s[j].end
    ensures Mirrors(stack + [x], at + [j], s) && at + [j] == Stack(s, j + 1)
  {
  }

  /** The first `n` symbols placed. */
  function NestedUpto(s: seq<Symbol>, n: nat): (r: seq<Symbol>)
    requires n <= |s|
    ensures |r| == |s|
  {
    Nested(s)[..n] + s[n..]
  }

  lemma NestedStep(s: seq<Symbol>, n: nat)
    requires n < |s|
    ensures NestedUpto(s, n)[n] == s[n]
    ensures NestedUpto(s, n + 1) == NestedUpto(s, n)[n := Placed(s, n, Top(s, n))]
  {
  }

  lemma NestedEnds(s: seq<Symbol>)
    ensures NestedUpto(s, 0) == s && NestedUpto(s, |s|) == Nested(s)
  {
  }

  /** The loop body: pop what has ended, take the container from the top, push. */
  method PlaceSymbol(symbol: Symbol, stack: seq<Symbol>, ghost at: seq<nat>, ghost s: seq<Symbol>, ghost index: nat)
    returns (placed: Symbol, left: seq<Symbol>, ghost leftAt: seq<nat>)
    requires index < |s| && symbol == s[index] && Mirrors(stack, at, s) && at == Stack(s, index)
    ensures placed == Placed(s, index, Top(s, index))
    ensures Mirrors(left, leftAt, s) && leftAt == Stack(s, index + 1)
  {
    left, leftAt := PopEnded(stack, at, s, symbol.start);
    placed := symbol;
    if |left| > 0 {
      placed := placed.(container := left[|left| - 1].name);
    }
    StackStep(s, index, left, leftAt, placed);
    left, leftAt := left + [placed], leftAt + [index];
  }

  /** Sort, then give each symbol the name on top of the stack of ranges still open at its start. */
  method NestSymbols(symbols: array<Symbol>)
    modifies symbols
    ensures symbols[..] == Nested(StableSort(old(symbols[..])))
  {
    Overwrite(symbols, StableSort(symbols[..]));
    ghost var s := symbols[..];
    NestedEnds(s);
    var stack: seq<Symbol> := [];
    ghost var at: seq<nat> := [];
    for index := 0 to symbols.Length
      invariant Mirrors(stack, at, s) && at == Stack(s, index)
      invariant symbols[..] == NestedUpto(s, index)
    {
      NestedStep(s, index);
      assert symbols[..][index] == s[index];
      var placed;
      placed, stack, at := PlaceSymbol(symbols[index], stack, at, s, index);
      symbols[index] := placed;
    }
  }

  // ---------------------------------------------------------------- what the stack finds

  /** The ranges are disjoint, or one lies within the other. */
  predicate Related(x: Symbol, y: Symbol) {
    || x.end <= y.start || y.end <= x.start
    || (x.start <= y.start && y.end <= x.end) || (y.start <= x.start && x.end <= y.end)
  }

  /** A properly nested family of non-empty ranges. */
  predicate Laminar(s: seq<Symbol>) {
    && (forall i :: 0 <= i < |s| ==> s[i].start < s[i].end)
    && forall i, j :: 0 <= i < |s| && 0 <= j < |s| ==> Related(s[i], s[j])
  }

  predicate Encloses(x: Symbol, y: Symbol) { x.start <= y.start && y.end <= x.end }

  /** `i` is the latest symbol before `j` whose range encloses it, or there is none. */
  predicate IsInnermost(s: seq<Symbol>, j: nat, i: int)
    requires j < |s|
  {
    && -1 <= i < j
    && (i >= 0 ==> Encloses(s[i], s[j]))
    && forall k :: i < k < j ==> !Encloses(s[k], s[j])
  }

  /** An earlier range is still open at a later start exactly when it encloses the later one. */
  lemma OpenMeansEncloses(s: seq<Symbol>, i: nat, j: nat)
    requires Ordered(s) && Laminar(s) && i < j < |s|
    ensures s[i].end > s[j].start <==> Encloses(s[i], s[j])
  {
    assert !Less(s[j], s[i]) && Related(s[i], s[j]);
  }

  /** Earlier indices in order, among them every range still open at `start`. */
  predicate Covers(s: seq<Symbol>, stack: seq<nat>, j: nat, start: int)
    requires j <= |s|
  {
    && (forall k :: 0 <= k < |stack| ==> stack[k] < j)
    && (forall k, l :: 0 <= k < l < |stack| ==> stack[k] < stack[l])
    && forall i :: 0 <= i < j && s[i].end > start ==> i in stack
  }

  /** Along the stack ranges end no later. */
  predicate Shrinks(s: seq<Symbol>, stack: seq<nat>) {
    && (forall k :: 0 <= k < |stack| ==> stack[k] < |s|)
    && forall k, l :: 0 <= k < l < |stack| ==> s[stack[k]].end >= s[stack[l]].end
  }

  predicate AllOpen(s: seq<Symbol>, stack: seq<nat>, start: int) {
    forall k :: 0 <= k < |stack| ==> stack[k] < |s| && s[stack[k]].end > start
  }

  lemma InInit(stack: seq<nat>, i: nat)
    requires |stack| > 0 && i in stack && i != stack[|stack| - 1]
    ensures i in stack[..|stack| - 1]
  {
    var k :| 0 <= k < |stack| && stack[k] == i;
    assert stack[..|stack| - 1][k] == i;
  }

  lemma CoversInit(s: seq<Symbol>, stack: seq<nat>, j: nat, start: int)
    requires j <= |s| && |stack| > 0 && Covers(s, stack, j, start) && Shrinks(s, stack)
    requires start >= s[stack[|stack| - 1]].end
    ensures Covers(s, stack[..|stack| - 1], j, start) && Shrinks(s, stack[..|stack| - 1])
  {
    forall i | 0 <= i < j && s[i].end > start ensures i in stack[..|stack| - 1] { InInit(stack, i); }
  }

  /** Popping what has ended leaves exactly the open ranges. */
  lemma {:induction false} PopCovers(s: seq<Symbol>, stack: seq<nat>, j: nat, start: int)
    requires j <= |s| && Covers(s, stack, j, start) && Shrinks(s, stack)
    ensures var p := Pop(s, stack, start); Covers(s, p, j, start) && Shrinks(s, p) && AllOpen(s, p, start)
    decreases |stack|
  {
    if |stack| > 0 && start >= s[stack[|stack| - 1]].end {
      CoversInit(s, stack, j, start);
      PopCovers(s, stack[..|stack| - 1], j, start);
    }
  }

  lemma OpenCoversNext(s: seq<Symbol>, p: seq<nat>, j: nat, later: int)
    requires j < |s| && s[j].start <= later && Covers(s, p, j, s[j].start)
    ensures Covers(s, p + [j], j + 1, later)
  {
    forall i | 0 <= i < j + 1 && s[i].end > later ensures i in p + [j] {
      if i < j { assert i in p; }
    }
  }

  lemma OpenShrinks(s: seq<Symbol>, p: seq<nat>, j: nat)
    requires Ordered(s) && Laminar(s) && j < |s|
    requires Covers(s, p, j, s[j].start) && Shrinks(s, p) && AllOpen(s, p, s[j].start)
    ensures Shrinks(s, p + [j])
  {
    forall k | 0 <= k < |p| ensures s[p[k]].end >= s[j].end { OpenMeansEncloses(s, p[k], j); }
  }

  lemma StartsGrow(s: seq<Symbol>, i: nat, j: nat)
    requires Ordered(s) && i < j < |s|
    ensures s[i].start <= s[j].start
  {
    assert !Less(s[j], s[i]);
  }

  /** A stack fit for the j-th symbol. */
  predicate Fits(s: seq<Symbol>, stack: seq<nat>, j: nat) {
    j < |s| && Covers(s, stack, j, s[j].start) && Shrinks(s, stack)
  }

  lemma FitsNext(s: seq<Symbol>, j: nat, stack: seq<nat>)
    requires Ordered(s) && Laminar(s) && j + 1 < |s| && Fits(s, stack, j)
    ensures Fits(s, Pop(s, stack, s[j].start) + [j], j + 1)
  {
    PopCovers(s, stack, j, s[j].start);
    StartsGrow(s, j, j + 1);
    OpenCoversNext(s, Pop(s, stack, s[j].start), j, s[j + 1].start);
    OpenShrinks(s, Pop(s, stack, s[j].start), j);
  }

  lemma StackUnfolds(s: seq<Symbol>, j: nat)
    requires j < |s|
    ensures Stack(s, j + 1) == Pop(s, Stack(s, j), s[j].start) + [j]
  {
  }

  lemma {:induction false} StackFits(s: seq<Symbol>, j: nat)
    requires Ordered(s) && Laminar(s) && j < |s|
    ensures Fits(s, Stack(s, j), j)
    decreases j
  {
    if j > 0 {
      var i: nat := j - 1;
      StackFits(s, i);
      FitsNext(s, i, Stack(s, i));
      StackUnfolds(s, i);
    }
  }

  lemma LastIsLatest(p: seq<nat>, i: nat)
    requires |p| > 0 && i in p && forall k, l :: 0 <= k < l < |p| ==> p[k] < p[l]
    ensures i <= p[|p| - 1]
  {
    var k :| 0 <= k < |p| && p[k] == i;
  }

  lemma LastOpenIsInnermost(s: seq<Symbol>, j: nat, p: seq<nat>)
    requires Ordered(s) && Laminar(s) && j < |s|
    requires Covers(s, p, j, s[j].start) && AllOpen(s, p, s[j].start)
    ensures IsInnermost(s, j, if |p| == 0 then -1 else p[|p| - 1])
  {
    var top := if |p| == 0 then -1 else p[|p| - 1];
    if |p| > 0 { OpenMeansEncloses(s, p[|p| - 1], j); }
    forall k | top < k < j ensures !Encloses(s[k], s[j]) {
      OpenMeansEncloses(s, k, j);
      if k in p { LastIsLatest(p, k); }
    }
  }

  /** For a properly nested family the top of the stack is the latest enclosing symbol. */
  lemma TopIsInnermost(s: seq<Symbol>, j: nat)
    requires Ordered(s) && Laminar(s) && j < |s|
    ensures IsInnermost(s, j, Top(s, j))
  {
    StackFits(s, j);
    PopCovers(s, Stack(s, j), j, s[j].start);
    LastOpenIsInnermost(s, j, Pop(s, Stack(s, j), s[j].start));
  }

  /** The latest enclosing symbol is the smallest: every other enclosing one encloses it too. */
  lemma InnermostIsSmallest(s: seq<Symbol>, j: nat, i: nat, k: nat)
    requires Ordered(s) && Laminar(s) && j < |s| && IsInnermost(s, j, i)
    requires k < j && Encloses(s[k], s[j])
    ensures k <= i && (k < i ==> Encloses(s[k], s[i]))
  {
    if k < i {
      StartsGrow(s, k, i);
      StartsGrow(s, i, j);
      OpenMeansEncloses(s, k, i);
      assert s[j].start < s[j].end;
    }
  }

  lemma LaminarSorts(s: seq<Symbol>)
    requires Laminar(s)
    ensures Laminar(StableSort(s)) && Ordered(StableSort(s))
  {
    var t := StableSort(s);
    SortOrders(s);
    SortCounts(s);
    forall i | 0 <= i < |t| ensures t[i] in s { assert t[i] in multiset(t); assert t[i] in multiset(s); }
    forall i | 0 <= i < |t| ensures t[i].start < t[i].end {
      var k :| 0 <= k < |s| && s[k] == t[i];
    }
    forall i, j | 0 <= i < |t| && 0 <= j < |t| ensures Related(t[i], t[j]) {
      var k :| 0 <= k < |s| && s[k] == t[i];
      var l :| 0 <= l < |s| && s[l] == t[j];
      assert Related(s[k], s[l]);
    }
  }

  /** The container the specification gives: the name of the innermost earlier enclosing symbol, or what was there. */
  ghost predicate RightContainer(s: seq<Symbol>, j: nat, container: string)
    requires j < |s|
  {
    exists i :: IsInnermost(s, j, i) && container == if i < 0 then s[j].container else s[i].name
  }

  /**
   On a properly nested family of non-empty ranges, in any order, nesting keeps the sorted
   symbols and gives each the innermost earlier symbol whose range encloses it.
   */
  lemma NestingIsContainment(symbols: seq<Symbol>, j: nat)
    requires Laminar(symbols) && j < |symbols|
    ensures var s := StableSort(symbols);
            Nested(s)[j].(container := s[j].container) == s[j] && RightContainer(s, j, Nested(s)[j].container)
  {
    var s := StableSort(symbols);
    LaminarSorts(symbols);
    TopIsInnermost(s, j);
  }
}
