/** Why no condition of HonestFreshness can be dropped, at any time and for any file. */
module FreshnessBreaches {
  // Every run of the code, from any disk and any index, has a continuation that ends "fresh"
  // with a wrong index through each way of leaving Protocol.Disciplined, and through each way
  // of missing Protocol.CleanPoint.

  import opened Text
  import CJ = ChangeJournal
  import Freshness
  import RecordCover
  import opened Protocol
  import opened ProtocolInvariant
  import opened ProtocolSteps
  import opened Recovery

  predicate Wrong(r: State) {
    Verdict(r) == Freshness.Fresh && Silent(r) && r.index != r.fs
  }

  ghost predicate FreshButWrong(s: State, steps: seq<Step>) {
    Initial(s) && Run(s, steps, false) && Wrong(Reach(s, steps, false))
  }

  /** The disk after a run. */
  ghost function Disk(s: State, before: seq<Step>): map<Path, Content>
    requires Run(s, before, false)
  {
    Reach(s, before, false).fs
  }

  lemma Breached(s: State, before: seq<Step>, more: seq<Step>, r: State)
    requires Initial(s) && Run(s, before, false)
    requires Ends(Reach(s, before, false), more, r, false) && Wrong(r)
    ensures FreshButWrong(s, before + more)
  {
    Continued(s, before, Reach(s, before, false), more, r);
  }

  /** A path the journal keeps under its own name. */
  predicate PlainPath(p: Path) { Trimmed(p) && p != "" && p != "." }

  // ---------------------------------------------------------------- a change nobody watches

  /**
   A directory past the watch budget, or one that could not be registered, opens one gap when
   it is met (fswatch.go:245-267). Once that gap is reconciled, any change there is invisible.
   */
  lemma UnwatchedChange(s: State, before: seq<Step>, c: Change) returns (more: seq<Step>)
    requires Initial(s) && Run(s, before, false)
    requires Effect(Disk(s, before), c) != Disk(s, before)
    ensures FreshButWrong(s, before + more)
  {
    var m, at := Reach(s, before, false), s;
    more, at := Settles(s, before);
    Then(m, more, at, User(c, Unobserved), false);
    more := more + [User(c, Unobserved)];
    Breached(s, before, more, DoUser(at, c, Unobserved));
  }

  // ---------------------------------------------------------------- one notified change

  /** One user change, notified, translated and recorded. */
  function Noticed(at: State, c: Change): State
    requires at.up && at.events == [] && at.native == [] && at.eventCap > 0
  {
    DoTakeEvent(DoTranslate(DoUser(at, c, Queued)), 0)
  }

  lemma Notice(m: State, steps: seq<Step>, at: State, c: Change) returns (more: seq<Step>)
    requires Ends(m, steps, at, false) && at.up && at.events == [] && at.native == [] && at.eventCap > 0
    ensures Ends(m, more, Noticed(at, c), false)
  {
    Then(m, steps, at, User(c, Queued), false);
    var queued := DoUser(at, c, Queued);
    Then(m, steps + [User(c, Queued)], queued, Translate, false);
    var sent := DoTranslate(queued);
    assert queued.native == [Note(|queued.history|)] && sent.events == [|queued.history|];
    Then(m, steps + [User(c, Queued)] + [Translate], sent, TakeEvent(0), false);
    more := steps + [User(c, Queued)] + [Translate] + [TakeEvent(0)];
  }

  /** The journal after recording one event, when it fits. */
  function Kept(j: CJ.State, e: CJ.Event): CJ.State { CJ.RecordOne(j, e) }

  lemma RecordedIs(j: CJ.State, e: CJ.Event, maxPending: nat)
    requires |Kept(j, e).pending| <= maxPending
    ensures CJ.Record(j, [e], maxPending, 0) == Kept(j, e)
  {
    CJ.RecordSingle(j, e, maxPending, 0);
  }

  lemma TakenIs(at: State, t: nat)
    requires at.events == [t] && 0 < t <= |at.history| && at.when.Keys <= at.journal.pending.Keys
    requires |Kept(at.journal, at.history[t - 1]).pending| <= at.maxPending
    ensures var e := at.history[t - 1];
            DoTakeEvent(at, 0) == at.(events := [], recorded := t, journal := Kept(at.journal, e), when := Remember(at.when, e, t))
  {
    var e := at.history[t - 1];
    RecordedIs(at.journal, e, at.maxPending);
    var kept := Kept(at.journal, e);
    assert CJ.Accepted(e) ==> CJ.Observed(e).path in kept.pending;
    assert at.journal.pending == map[] ==> at.when == map[];
  }

  lemma NoticedIs(at: State, c: Change)
    requires at.up && at.events == [] && at.native == [] && at.eventCap > 0 && at.when.Keys <= at.journal.pending.Keys
    requires |Kept(at.journal, EventOf(c)).pending| <= at.maxPending
    ensures var t := |at.history| + 1;
            Noticed(at, c) == at.(history := at.history + [EventOf(c)], fs := Effect(at.fs, c), recorded := t,
              journal := Kept(at.journal, EventOf(c)), when := Remember(at.when, EventOf(c), t))
  {
    var t := |at.history| + 1;
    var sent := DoTranslate(DoUser(at, c, Queued));
    assert sent == at.(history := at.history + [EventOf(c)], fs := Effect(at.fs, c), events := [t], native := []);
    TakenIs(sent, t);
  }

  lemma KeptPlain(j: CJ.State, e: CJ.Event)
    requires PlainPath(e.path)
    ensures Kept(j, e) == CJ.Put(j, e)
  {
    TrimmedIsFixed(e.path);
  }

  lemma PutAlone(j: CJ.State, e: CJ.Event)
    requires j.pending == map[] || j.pending.Keys == {e.path}
    ensures CJ.Put(j, e).pending == map[e.path := CJ.EntryFor(j.sequence + 1, e)]
    ensures |CJ.Put(j, e).pending| == 1
  {
  }

  // ---------------------------------------------------------------- draining one entry

  /** The index after applying one entry, path by path. */
  ghost predicate AppliedEntry(e: CJ.Entry, fs: map<Path, Content>, index: map<Path, Content>, index': map<Path, Content>) {
    forall q :: At(index', q) ==
      if !RecordCover.Settles(e, q) then At(index, q)
      else if e.kind == CJ.Removed then None
      else At(fs, q)
  }

  lemma OneListed(e: CJ.Entry, pending: map<string, CJ.Entry>)
    requires pending == map[e.path := e]
    ensures CJ.Lists([e], pending) && pending != map[]
  {
    assert e.path in pending && pending[e.path] == e;
    assert e in [e];
  }

  function ItemOf(e: CJ.Entry, when: map<Path, nat>): Item {
    Item(e.path, e.kind == CJ.Removed, e.kind == CJ.Removed && e.directory, if e.path in when then when[e.path] else 0)
  }

  lemma OneItem(e: CJ.Entry, when: map<Path, nat>)
    ensures Items([e], when) == if Effective(e) then [ItemOf(e, when)] else []
  {
    assert [e][..0] == [];
    assert Items([], when) == [];
  }

  lemma OneApplied(e: CJ.Entry, when: map<Path, nat>, index: map<Path, Content>, fs: map<Path, Content>)
    ensures AppliedEntry(e, fs, index, if Effective(e) then ApplyItem(index, ItemOf(e, when), fs) else index)
  {
  }

  /** Serving a request of one operation, or of none. */
  function Served(at: State, e: CJ.Entry): State {
    at.(drain := Some(Drain(at.journal.TakeMark(), false, Items([e], at.when), at.recorded, Serving)),
        job := Some(Delta(at.index, Items([e], at.when))))
  }

  lemma Work(m: State, steps: seq<Step>, at: State, e: CJ.Entry, strict: bool) returns (more: seq<Step>, work: map<Path, Content>)
    requires Ends(m, steps, Served(at, e), strict)
    ensures Ends(m, more, Served(at, e).(job := Some(Delta(work, []))), strict)
    ensures AppliedEntry(e, at.fs, at.index, work)
  {
    more, work := steps, at.index;
    OneItem(e, at.when);
    OneApplied(e, at.when, at.index, at.fs);
    if Effective(e) {
      work := ApplyItem(at.index, ItemOf(e, at.when), at.fs);
      Then(m, steps, Served(at, e), ApplyNext, strict);
      assert [ItemOf(e, at.when)][1..] == [];
      more := steps + [ApplyNext];
    }
  }

  /** One entry was pending; now nothing is, and the index has that entry applied. */
  ghost predicate Drained(at: State, e: CJ.Entry, r: State) {
    && r == at.(index := r.index, when := map[], journal := r.journal)
    && r.journal.gap.None? && r.journal.pending == map[]
    && AppliedEntry(e, at.fs, at.index, r.index)
  }

  ghost predicate OnePending(at: State, e: CJ.Entry) {
    && at.up && at.drain.None? && at.job.None? && at.journal.gap.None?
    && at.journal.pending == map[e.path := e] && e.num <= at.journal.sequence
  }

  lemma DrainedIs(at: State, e: CJ.Entry, work: map<Path, Content>)
    requires OnePending(at, e) && AppliedEntry(e, at.fs, at.index, work)
    ensures Drained(at, e, DoAcknowledge(DoPublish(Served(at, e).(job := Some(Delta(work, [])))), 1))
  {
    var r := DoAcknowledge(DoPublish(Served(at, e).(job := Some(Delta(work, [])))), 1);
    assert r.journal.pending == map[] && r.when == map[];
  }

  lemma DrainEntry(m: State, steps: seq<Step>, at: State, e: CJ.Entry, strict: bool) returns (more: seq<Step>, r: State)
    requires Ends(m, steps, at, strict) && OnePending(at, e)
    ensures Ends(m, more, r, strict) && Drained(at, e, r)
  {
    OneListed(e, at.journal.pending);
    Then(m, steps, at, Snapshot([e]), strict);
    Then(m, steps + [Snapshot([e])], DoSnapshot(at, [e]), Serve, strict);
    assert DoServe(DoSnapshot(at, [e])) == Served(at, e);
    var work;
    more, work := Work(m, steps + [Snapshot([e])] + [Serve], at, e, strict);
    var applied := Served(at, e).(job := Some(Delta(work, [])));
    more := Answer(m, more, applied, strict);
    r := DoAcknowledge(DoPublish(applied), 1);
    DrainedIs(at, e, work);
  }

  lemma WrongAt(r: State, q: Path)
    requires r.up && Silent(r) && r.drain.None? && r.journal.gap.None? && r.journal.pending == map[]
    requires At(r.index, q) != At(r.fs, q)
    ensures Wrong(r)
  {
  }

  // ---------------------------------------------------------------- a replaced entry

  /** Every path the first change altered is within reach of the second. */
  ghost predicate Overtakes(fs: map<Path, Content>, first: Change, second: Change) {
    forall q :: At(Effect(fs, first), q) != At(fs, q) ==> Touches(EventOf(second), q)
  }

  /**
   Two changes at one path, notified and recorded one after the other and drained together:
   the verdict is fresh, and it is honest if and only if the second change reaches every path
   that the first one altered.
   */
  lemma PairIsHonestExactly(s: State, before: seq<Step>, first: Change, second: Change) returns (more: seq<Step>, r: State)
    requires Initial(s) && Run(s, before, false)
    requires PlainPath(first.path) && second.path == first.path
    ensures Ends(Reach(s, before, false), more, r, false)
    ensures Verdict(r) == Freshness.Fresh && Silent(r)
    ensures r.index == r.fs <==> Overtakes(Disk(s, before), first, second)
  {
    var m, at := Reach(s, before, false), s;
    more, at := Settles(s, before);
    more := Notice(m, more, at, first);
    var one := NarrowFirst(at, first);
    more := Notice(m, more, one, second);
    var two, e := NarrowSecond(one, second);
    more, r := DrainEntry(m, more, two, e, false);
    PairApplied(at.fs, first, second, e, r.index);
  }

  lemma PairApplied(fs: map<Path, Content>, first: Change, second: Change, e: CJ.Entry, index: map<Path, Content>)
    requires forall q :: RecordCover.Settles(e, q) <==> Touches(EventOf(second), q)
    requires e.kind == EventOf(second).kind && AppliedEntry(e, Effect(Effect(fs, first), second), fs, index)
    ensures index == Effect(Effect(fs, first), second) <==> Overtakes(fs, first, second)
  {
    var mid, end := Effect(fs, first), Effect(Effect(fs, first), second);
    forall q ensures At(index, q) == At(end, q) <==> (At(mid, q) != At(fs, q) ==> Touches(EventOf(second), q)) {
      EffectAt(mid, second, q);
    }
    if Overtakes(fs, first, second) { SameEverywhere(index, end); }
  }

  /** The change at `q` is forgotten when a second one at the same path does not reach it. */
  lemma EntryNarrowed(s: State, before: seq<Step>, first: Change, second: Change, q: Path) returns (more: seq<Step>)
    requires Initial(s) && Run(s, before, false)
    requires PlainPath(first.path) && second.path == first.path
    requires At(Effect(Disk(s, before), first), q) != At(Disk(s, before), q) && !Touches(EventOf(second), q)
    ensures FreshButWrong(s, before + more)
  {
    var r;
    more, r := PairIsHonestExactly(s, before, first, second);
    Breached(s, before, more, r);
  }

  lemma NarrowFirst(at: State, c: Change) returns (one: State)
    requires Idle(at) && PlainPath(c.path)
    ensures one == Noticed(at, c) && one.fs == Effect(at.fs, c) && one.index == at.index
    ensures one == at.(history := one.history, fs := one.fs, recorded := one.recorded, journal := one.journal, when := one.when)
    ensures one.journal.gap.None? && one.journal.pending.Keys == {c.path} && one.when.Keys == {c.path}
  {
    KeptPlain(at.journal, EventOf(c));
    PutAlone(at.journal, EventOf(c));
    NoticedIs(at, c);
    one := Noticed(at, c);
  }

  lemma NarrowSecond(one: State, c: Change) returns (two: State, e: CJ.Entry)
    requires one.up && Silent(one) && one.drain.None? && one.job.None? && one.eventCap > 0 && one.maxPending > 0
    requires one.journal.gap.None? && one.journal.pending.Keys == {c.path} && one.when.Keys == {c.path}
    requires PlainPath(c.path)
    ensures two == Noticed(one, c) && OnePending(two, e) && Silent(two)
    ensures two.index == one.index && two.fs == Effect(one.fs, c)
    ensures e.kind == EventOf(c).kind && forall q :: RecordCover.Settles(e, q) <==> Touches(EventOf(c), q)
  {
    KeptPlain(one.journal, EventOf(c));
    PutAlone(one.journal, EventOf(c));
    NoticedIs(one, c);
    two, e := Noticed(one, c), CJ.EntryFor(one.journal.sequence + 1, EventOf(c));
  }

  /** A directory renamed away and created again in one batch leaves its old files indexed. */
  lemma DirectoryReplaced(s: State, before: seq<Step>, d: Path, name: Path) returns (more: seq<Step>)
    requires Initial(s) && Run(s, before, false)
    requires PlainPath(d) && d + "/" + name in Disk(s, before)
    ensures FreshButWrong(s, before + more)
  {
    more := EntryNarrowed(s, before, DeleteTree(d), MakeDir(d), d + "/" + name);
  }

  /** A file deleted and a directory created under its name leaves the file indexed. */
  lemma FileBecomesDirectory(s: State, before: seq<Step>, f: Path) returns (more: seq<Step>)
    requires Initial(s) && Run(s, before, false)
    requires PlainPath(f) && f in Disk(s, before)
    ensures FreshButWrong(s, before + more)
  {
    more := EntryNarrowed(s, before, Delete(f), MakeDir(f), f);
  }

  // ---------------------------------------------------------------- a path that does not survive trimming

  /** What an observation of an untrimmed name touches, its trimmed record never does. */
  lemma TrimTouchesElsewhere(e: CJ.Event, q: Path)
    requires !Trimmed(e.path) && CJ.Accepted(e) && Touches(e, q)
    ensures !Touches(CJ.Observed(e), q)
  {
    var p, t := e.path, TrimSpace(e.path);
    var a := Lead(p, 0);
    var b := Trail(p, a, |p|);
    assert t == p[a..b] && a < b;
    assert p <= q && q[0] == p[0];
    if !IsSpace(p[0]) {
      assert Lead(p, 0) == 0;
      assert b < |p|;
      TrailStops(p, a, |p|);
      assert q[b] == p[b];
      assert t <= q ==> |t| == b;
    } else {
      LeadMoves(p);
      assert t[0] == p[a];
    }
  }

  lemma {:induction false} TrailStops(s: string, low: nat, i: nat)
    requires low <= i <= |s|
    ensures forall k :: Trail(s, low, i) <= k < i ==> IsSpace(s[k])
    decreases i
  {
    if i > low && IsSpace(s[i - 1]) { TrailStops(s, low, i - 1); }
  }

  lemma LeadMoves(s: string)
    requires s != "" && IsSpace(s[0])
    ensures Lead(s, 0) > 0
  {
  }

  /**
   A name that starts or ends with a space, or that trims to nothing, is recorded under
   another name or not at all (journal.go:221): any change there is forgotten.
   */
  lemma TrimmedName(s: State, before: seq<Step>, c: Change) returns (more: seq<Step>)
    requires Initial(s) && Run(s, before, false)
    requires !PlainPath(c.path) && Effect(Disk(s, before), c) != Disk(s, before)
    ensures FreshButWrong(s, before + more)
  {
    var m, at := Reach(s, before, false), s;
    more, at := Settles(s, before);
    more := Notice(m, more, at, c);
    var q := Changed(at.fs, c);
    var r := Noticed(at, c);
    if CJ.Accepted(EventOf(c)) {
      var e := Misnamed(at, c, q);
      more, r := DrainEntry(m, more, r, e, false);
    } else {
      NoticedIs(at, c);
    }
    WrongAt(r, q);
    Breached(s, before, more, r);
  }

  lemma Changed(fs: map<Path, Content>, c: Change) returns (q: Path)
    requires Effect(fs, c) != fs
    ensures At(Effect(fs, c), q) != At(fs, q) && Touches(EventOf(c), q)
  {
    if forall x :: At(Effect(fs, c), x) == At(fs, x) { SameEverywhere(Effect(fs, c), fs); }
    q :| At(Effect(fs, c), q) != At(fs, q);
    EffectAt(fs, c, q);
  }

  lemma Misnamed(at: State, c: Change, q: Path) returns (e: CJ.Entry)
    requires Idle(at) && !PlainPath(c.path) && CJ.Accepted(EventOf(c)) && Touches(EventOf(c), q)
    ensures OnePending(Noticed(at, c), e) && !RecordCover.Settles(e, q)
    ensures var r := Noticed(at, c); Silent(r) && r.index == at.index && r.fs == Effect(at.fs, c)
  {
    TrimmedIsFixed(c.path);
    var kept := CJ.Observed(EventOf(c));
    PutAlone(at.journal, kept);
    NoticedIs(at, c);
    TrimTouchesElsewhere(EventOf(c), q);
    e := CJ.EntryFor(at.journal.sequence + 1, kept);
  }

  // ---------------------------------------------------------------- a removal nobody expects any more

  /** A file removed and written again, the second change without a notification of its own. */
  function Rewritten(at: State, q: Path, content: Content): State {
    at.(history := at.history + [EventOf(Delete(q))] + [EventOf(Write(q, content))], fs := at.fs[q := content])
  }

  /** Only the removal of `q` is recorded: one pending entry, to be drained. */
  function RemovalKept(at: State, q: Path, t: nat): State {
    at.(events := [], recorded := t, journal := CJ.Put(at.journal, EventOf(Delete(q))), when := map[q := t])
  }

  lemma RemovalTaken(at: State, q: Path, t: nat)
    requires PlainPath(q) && at.events == [t] && 0 < t <= |at.history| && at.history[t - 1] == EventOf(Delete(q))
    requires at.journal.pending == map[] && at.when == map[] && at.maxPending > 0
    ensures DoTakeEvent(at, 0) == RemovalKept(at, q, t)
    ensures RemovalKept(at, q, t).journal.pending == map[q := CJ.EntryFor(at.journal.sequence + 1, EventOf(Delete(q)))]
    ensures RecordsFaithfully(at.journal, EventOf(Delete(q)))
  {
    KeptPlain(at.journal, EventOf(Delete(q)));
    PutAlone(at.journal, EventOf(Delete(q)));
    TrimmedIsFixed(q);
    TakenIs(at, t);
  }

  /** Draining the removal of a file that exists. */
  lemma DrainRemoval(m: State, steps: seq<Step>, at: State, q: Path, num: nat, strict: bool) returns (more: seq<Step>, r: State)
    requires Ends(m, steps, at, strict) && OnePending(at, CJ.EntryFor(num, EventOf(Delete(q)))) && Silent(at) && q in at.fs
    ensures Ends(m, more, r, strict) && Wrong(r)
  {
    var e := CJ.EntryFor(num, EventOf(Delete(q)));
    more, r := DrainEntry(m, steps, at, e, strict);
    assert RecordCover.Settles(e, q);
    WrongAt(r, q);
  }

  // ---------------------------------------------------------------- a gap that overtakes its events

  /** The removal is queued, the write that followed it was lost, and the loss is recorded. */
  function Overtaken(at: State, q: Path, content: Content): State {
    Rewritten(at, q, content).(events := [|at.history| + 1],
      journal := CJ.MarkGap(at.journal, Reason(WatcherOverflow), 0, 0))
  }

  /** The states on the way there: both notifications in the kernel, one sent, the loss told. */
  function Rewriting(at: State, q: Path, content: Content): State {
    Rewritten(at, q, content).(native := [Note(|at.history| + 1), Overflow])
  }

  function RemovalSent(at: State, q: Path, content: Content): State {
    Rewritten(at, q, content).(native := [Overflow], events := [|at.history| + 1])
  }

  function LossTold(at: State, q: Path, content: Content): State {
    Rewritten(at, q, content).(events := [|at.history| + 1], gaps := [WatcherOverflow])
  }

  lemma RewriteSteps(at: State, q: Path, content: Content)
    requires at.up && Silent(at)
    ensures DoUser(DoUser(at, Delete(q), Queued), Write(q, content), KernelLoss) == Rewriting(at, q, content)
    ensures DoUser(DoUser(at, Delete(q), Queued), Write(q, content), Unobserved)
         == Rewritten(at, q, content).(native := [Note(|at.history| + 1)])
  {
    assert Effect(Effect(at.fs, Delete(q)), Write(q, content)) == at.fs[q := content];
  }

  lemma OvertakeSteps(at: State, q: Path, content: Content)
    requires at.up && Silent(at) && at.eventCap > 0 && at.gapCap > 0
    ensures DoTranslate(Rewriting(at, q, content)) == RemovalSent(at, q, content)
    ensures DoTranslate(RemovalSent(at, q, content)) == LossTold(at, q, content)
    ensures DoTakeGap(LossTold(at, q, content), 0) == Overtaken(at, q, content)
  {
  }

  lemma Overtake(m: State, steps: seq<Step>, at: State, q: Path, content: Content) returns (more: seq<Step>)
    requires Ends(m, steps, at, false) && at.up && Silent(at) && at.eventCap > 0 && at.gapCap > 0
    ensures Ends(m, more, Overtaken(at, q, content), false)
  {
    var removal, write := User(Delete(q), Queued), User(Write(q, content), KernelLoss);
    RewriteSteps(at, q, content);
    OvertakeSteps(at, q, content);
    Then(m, steps, at, removal, false);
    Then(m, steps + [removal], DoUser(at, Delete(q), Queued), write, false);
    more := steps + [removal] + [write];
    Then(m, more, Rewriting(at, q, content), Translate, false);
    Then(m, more + [Translate], RemovalSent(at, q, content), Translate, false);
    more := more + [Translate] + [Translate];
    Then(m, more, LossTold(at, q, content), TakeGap(0), false);
    more := more + [TakeGap(0)];
  }

  /** The reconciliation is acknowledged with the removal recorded in between. */
  lemma Overtaking(at: State, walked: State, q: Path, t: nat)
    requires PlainPath(q) && at.events == [t] && 0 < t <= |at.history| && at.history[t - 1] == EventOf(Delete(q))
    requires at.journal.pending == map[] && at.when == map[] && at.maxPending > 0 && at.journal.gap.Some?
    requires at.up && at.native == [] && at.gaps == [] && Walked(at, walked)
    ensures Attached(DoTakeEvent(walked, 0)) && Finished(DoTakeEvent(walked, 0).job.value)
    ensures var r := DoAcknowledge(DoPublish(DoTakeEvent(walked, 0)), 1);
            OnePending(r, CJ.EntryFor(at.journal.sequence + 1, EventOf(Delete(q)))) && Silent(r) && r.fs == at.fs
  {
    RemovalTaken(walked, q, t);
    AcknowledgedAround(RemovalKept(walked, q, t), at.journal, CJ.EntryFor(at.journal.sequence + 1, EventOf(Delete(q))));
  }

  /** An entry newer than the mark outlives the acknowledgement that closes the gap. */
  lemma AcknowledgedAround(taken: State, j: CJ.State, e: CJ.Entry)
    requires taken.up && Silent(taken) && Attached(taken) && taken.job.Some? && Finished(taken.job.value)
    requires taken.drain.value.reconcile && taken.drain.value.mark == j.TakeMark()
    requires taken.journal.gapSeq == j.gapSeq && taken.journal.sequence == j.sequence + 1
    requires taken.journal.pending == map[e.path := e] && e.num == j.sequence + 1
    ensures var r := DoAcknowledge(DoPublish(taken), 1); OnePending(r, e) && Silent(r) && r.fs == taken.fs
  {
    var r := DoAcknowledge(DoPublish(taken), 1);
    assert r.journal.pending == map[e.path := e];
  }

  lemma RecordMeanwhile(m: State, steps: seq<Step>, at: State, walked: State, q: Path, t: nat) returns (more: seq<Step>, r: State)
    requires Ends(m, steps, walked, false) && Walked(at, walked)
    requires PlainPath(q) && at.events == [t] && 0 < t <= |at.history| && at.history[t - 1] == EventOf(Delete(q))
    requires at.journal.pending == map[] && at.when == map[] && at.maxPending > 0 && at.journal.gap.Some?
    requires at.up && at.native == [] && at.gaps == [] && q in at.fs
    ensures Ends(m, more, r, false) && Wrong(r)
  {
    Then(m, steps, walked, TakeEvent(0), false);
    Overtaking(at, walked, q, t);
    var taken := DoTakeEvent(walked, 0);
    more := Answer(m, steps + [TakeEvent(0)], taken, false);
    more, r := DrainRemoval(m, more, DoAcknowledge(DoPublish(taken), 1), q, at.journal.sequence + 1, false);
  }

  /**
   A notice of loss reaches the journal before the events queued ahead of the loss, because
   the two channels are read independently (worker.go:134-164). A reconciliation started in
   between clears the gap; the queued removal is then applied to a file that exists.
   */
  lemma GapOvertakesRemoval(s: State, before: seq<Step>, q: Path, content: Content) returns (more: seq<Step>)
    requires Initial(s) && Run(s, before, false) && PlainPath(q)
    ensures FreshButWrong(s, before + more)
  {
    var m, at := Reach(s, before, false), s;
    more, at := Settles(s, before);
    var t := |at.history| + 1;
    more := Overtake(m, more, at, q, content);
    var o, walked, r := Overtaken(at, q, content), at, at;
    more, walked := Walk(m, more, o, false);
    more, r := RecordMeanwhile(m, more, o, walked, q, t);
    Breached(s, before, more, r);
  }

  // ---------------------------------------------------------------- what a clean point must rule out

  /**
   A removal still queued in the kernel when the reconciliation starts. The rest of the run
   is disciplined, and it ends fresh without a file that exists.
   */
  lemma StaleRemovalQueued(s: State, before: seq<Step>, q: Path, content: Content)
    returns (more: seq<Step>, dirty: State, after: seq<Step>)
    requires Initial(s) && Run(s, before, false) && PlainPath(q)
    ensures Ends(Reach(s, before, false), more, dirty, false)
    ensures dirty.up && dirty.drain.None? && dirty.journal.gap.Some? && !NoQueuedRemoval(dirty)
    ensures Run(dirty, after, true) && Wrong(Reach(dirty, after, true))
  {
    var m, at := Reach(s, before, false), s;
    more, at := Settles(s, before);
    more := Lose(m, more, at, q, false);
    LostBase(at, q);
    var lost := Lost(at, q);
    more, dirty := Requeue(m, more, lost, q, content);
    var r, t := at, |lost.history| + 1;
    after, r := Reconcile(dirty, [], dirty, true);
    after, r := Expire(dirty, after, r, q, t);
  }

  /** The removal is notified, the write that follows it is not watched. */
  lemma Requeue(m: State, steps: seq<Step>, at: State, q: Path, content: Content) returns (more: seq<Step>, dirty: State)
    requires Ends(m, steps, at, false) && at.up && Silent(at)
    ensures Ends(m, more, dirty, false)
    ensures dirty == Rewritten(at, q, content).(native := [Note(|at.history| + 1)]) && !NoQueuedRemoval(dirty)
  {
    var removal, write := User(Delete(q), Queued), User(Write(q, content), Unobserved);
    Then(m, steps, at, removal, false);
    Then(m, steps + [removal], DoUser(at, Delete(q), Queued), write, false);
    RewriteSteps(at, q, content);
    more, dirty := steps + [removal] + [write], Do(DoUser(at, Delete(q), Queued), write);
    assert dirty.native[0] == Note(|at.history| + 1);
  }

  lemma Sent(at: State, t: nat)
    requires at.native == [Note(t)] && at.events == [] && at.eventCap > 0
    ensures DoTranslate(at) == at.(native := [], events := [t])
  {
  }

  lemma TakeRemoval(m: State, steps: seq<Step>, sent: State, q: Path, t: nat) returns (more: seq<Step>)
    requires Ends(m, steps, sent, true) && PlainPath(q) && 0 < t <= |sent.history| && sent.history[t - 1] == EventOf(Delete(q))
    requires sent.up && sent.events == [t] && sent.journal.pending == map[] && sent.when == map[] && sent.maxPending > 0
    ensures Ends(m, more, RemovalKept(sent, q, t), true)
  {
    RemovalTaken(sent, q, t);
    assert Disciplined(sent, TakeEvent(0));
    Then(m, steps, sent, TakeEvent(0), true);
    more := steps + [TakeEvent(0)];
  }

  lemma RemovalPending(sent: State, q: Path, t: nat)
    requires PlainPath(q) && sent.events == [t] && 0 < t <= |sent.history| && sent.history[t - 1] == EventOf(Delete(q))
    requires sent.up && sent.native == [] && sent.gaps == [] && sent.drain.None? && sent.job.None? && sent.journal.gap.None?
    requires sent.journal.pending == map[] && sent.when == map[] && sent.maxPending > 0
    ensures var r := RemovalKept(sent, q, t);
            OnePending(r, CJ.EntryFor(sent.journal.sequence + 1, EventOf(Delete(q)))) && Silent(r) && r.fs == sent.fs
  {
    RemovalTaken(sent, q, t);
  }

  /** A reconciled state with that removal still queued, carried on to the end. */
  lemma Expire(m: State, steps: seq<Step>, at: State, q: Path, t: nat) returns (more: seq<Step>, r: State)
    requires Ends(m, steps, at, true) && PlainPath(q) && 0 < t <= |at.history| && at.history[t - 1] == EventOf(Delete(q))
    requires at.up && at.native == [Note(t)] && at.events == [] && at.gaps == [] && at.eventCap > 0 && at.maxPending > 0
    requires at.drain.None? && at.job.None? && at.journal.gap.None?
    requires at.journal.pending == map[] && at.when == map[] && q in at.fs
    ensures Ends(m, more, r, true) && Wrong(r)
  {
    var sent := at.(native := [], events := [t]);
    Then(m, steps, at, Translate, true);
    Sent(at, t);
    more := TakeRemoval(m, steps + [Translate], sent, q, t);
    RemovalPending(sent, q, t);
    more, r := DrainRemoval(m, more, RemovalKept(sent, q, t), q, sent.journal.sequence + 1, true);
  }

  /**
   A reconciliation already under way when the unwatched change happens has read the disk too
   early. The rest of the run is disciplined, and it closes the gap over the change.
   */
  lemma WalkOverrun(s: State, before: seq<Step>, c: Change)
    returns (more: seq<Step>, dirty: State, after: seq<Step>)
    requires Initial(s) && Run(s, before, false)
    requires Effect(Disk(s, before), c) != Disk(s, before)
    ensures Ends(Reach(s, before, false), more, dirty, false)
    ensures dirty.up && dirty.drain.Some? && dirty.journal.gap.Some? && NoQueuedRemoval(dirty)
    ensures Run(dirty, after, true) && Wrong(Reach(dirty, after, true))
  {
    var m, at, walked := Reach(s, before, false), s, s;
    more, at := Settles(s, before);
    more := Lose(m, more, at, "f", false);
    var lost := Lost(at, "f");
    more, walked := Walk(m, more, lost, false);
    Then(m, more, walked, User(c, Unobserved), false);
    more, dirty := more + [User(c, Unobserved)], DoUser(walked, c, Unobserved);
    after := Answer(dirty, [], dirty, true);
    var r := DoAcknowledge(DoPublish(dirty), 1);
    assert r.journal.pending == map[];
  }
}
