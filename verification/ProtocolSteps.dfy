/**
 Steps of the user, the watcher and the event loop keep the invariant.

 Each step has two halves. A lemma named after the step with `Base` says what it keeps
 whatever the environment does: the disk agrees with the log about what was removed, the
 journal's entries stand for dated observations, and both queues hold positions of the log
 in order. The lemma with `Step` adds, for a disciplined step, that what the index, a
 running job and a drain promise is carried over (ProtocolInvariant.FlowKeeps). Recording
 an event is the one step where the two differ in substance: Base holds for any event, and
 the rest needs the replaced entry to be covered by the new one.
 */
module ProtocolSteps {
  import opened Text
  import CJ = ChangeJournal
  import opened Protocol
  import opened ProtocolInvariant

  // ---------------------------------------------------------------- the user

  lemma RecordedGrows(h: seq<CJ.Event>, h': seq<CJ.Event>, j: CJ.State, when: map<Path, nat>, bound: nat, bound': nat)
    requires Recorded(h, j, when, bound) && h <= h' && bound <= bound' <= |h'|
    ensures Recorded(h', j, when, bound')
  {
  }

  lemma EffectAt(fs: map<Path, Content>, c: Change, q: Path)
    ensures !Touches(EventOf(c), q) ==> At(Effect(fs, c), q) == At(fs, q)
    ensures Touches(EventOf(c), q) && EventOf(c).kind == CJ.Removed ==> q !in Effect(fs, c)
  {
  }

  lemma UserDiskOk(s: State, c: Change, fate: Fate)
    requires DiskOk(s)
    ensures DiskOk(DoUser(s, c, fate))
  {
    var s' := DoUser(s, c, fate);
    forall q | Removes(s'.history, LastTouch(s'.history, q), q) ensures q !in s'.fs {
      LastTouchAppend(s.history, EventOf(c), q);
      EffectAt(s.fs, c, q);
    }
  }

  lemma UserNativeOk(s: State, c: Change, fate: Fate)
    requires NativeOk(s) && Queues(s) && fate != Unobserved
    ensures NativeOk(DoUser(s, c, fate))
  {
    var s' := DoUser(s, c, fate);
    var n := |s.native|;
    forall i, q | 0 <= i < |s'.native| && s'.native[i].Note? && Removes(s'.history, s'.native[i].time, q)
      ensures NativeCovers(s', i, q)
    {
      LastTouchAppend(s.history, EventOf(c), q);
      assert s'.native[i..] == s.native[i..] + [s'.native[n]];
      if i < n && fate == Queued && !Touches(EventOf(c), q) {
        assert s'.native[i] == s.native[i];
        assert NativeCovers(s, i, q);
      }
    }
  }

  lemma NativeAppend(native: seq<NativeItem>, x: NativeItem, low: nat, high: nat)
    requires NativeTimesOk(native, low, high) && low <= high && (x.Note? ==> x.time == high + 1)
    ensures NativeTimesOk(native + [x], low, high + 1)
  {
    var n := native + [x];
    forall i, j | 0 <= i < j < |n| && n[i].Note? && n[j].Note? ensures n[i].time < n[j].time {
      assert n[i] in native;
    }
  }

  lemma UserQueues(s: State, c: Change, fate: Fate)
    requires Queues(s) && s.recorded <= |s.history|
    ensures Queues(DoUser(s, c, fate))
  {
    var t := |s.history| + 1;
    NativeAppend(s.native, Note(t), s.recorded, |s.history|);
    NativeAppend(s.native, Overflow, s.recorded, |s.history|);
  }

  lemma UserBase(s: State, c: Change, fate: Fate)
    requires Base(s) && (fate == Unobserved || s.up)
    ensures Base(DoUser(s, c, fate))
  {
    var s' := DoUser(s, c, fate);
    UserDiskOk(s, c, fate);
    if s.disk.Some? {
      RecordedGrows(s.history, s'.history, s.disk.value.journal, s.disk.value.when, |s.history|, |s'.history|);
    }
    if s.up {
      RecordedGrows(s.history, s'.history, s.journal, s.when, s.recorded, s.recorded);
      UserQueues(s, c, fate);
    }
  }

  lemma UserCarries(s: State, c: Change, q: Path)
    requires s.up && Bookkeeping(s)
    ensures Carries(s, DoUser(s, c, Queued), q)
  {
    var s' := DoUser(s, c, Queued);
    var t := |s'.history|;
    LastTouchAppend(s.history, EventOf(c), q);
    EffectAt(s.fs, c, q);
    assert s'.native[|s.native|] == Note(t);
    assert forall u: nat :: InFlight(s', u) <==> InFlight(s, u) || u == t;
    if !Touches(EventOf(c), q) {
      forall u: nat | IsLive(s', u) && Removes(s'.history, u, q) ensures IsLive(s, u) && Removes(s.history, u, q) {}
    }
  }

  lemma UserStep(s: State, c: Change, fate: Fate)
    requires Inv(s) && (fate == Unobserved || s.up) && (s.up ==> fate != Unobserved)
    ensures Inv(DoUser(s, c, fate))
  {
    var s' := DoUser(s, c, fate);
    UserBase(s, c, fate);
    if s.up {
      UserNativeOk(s, c, fate);
      if fate == Queued {
        forall q ensures Carries(s, s', q) { UserCarries(s, c, q); }
        assert forall x :: x in s.native ==> x in s'.native;
      } else {
        assert s'.native[|s.native|] == Overflow;
      }
      assert Alarm(s) ==> Alarm(s');
      FlowKeeps(s, s');
    }
  }

  // ---------------------------------------------------------------- the watcher

  lemma TailCovers(s: State, s': State)
    requires NativeOk(s) && s.native != [] && s'.native == s.native[1..] && s'.history == s.history
    ensures NativeOk(s')
  {
    forall i, q | 0 <= i < |s'.native| && s'.native[i].Note? && Removes(s'.history, s'.native[i].time, q)
      ensures NativeCovers(s', i, q)
    {
      assert s'.native[i] == s.native[i + 1];
      assert s'.native[i..] == s.native[i + 1..];
      assert NativeCovers(s, i + 1, q);
    }
  }

  lemma NativeTail(native: seq<NativeItem>, low: nat, high: nat)
    requires NativeTimesOk(native, low, high) && native != []
    ensures NativeTimesOk(native[1..], low, high)
    ensures native[0].Note? ==> forall x: NativeItem :: x in native[1..] && x.Note? ==> native[0].time < x.time
  {
    var n := native[1..];
    forall i, j | 0 <= i < j < |n| && n[i].Note? && n[j].Note? ensures n[i].time < n[j].time {
      assert n[i] == native[i + 1] && n[j] == native[j + 1];
    }
  }

  lemma EventsAppend(events: seq<nat>, t: nat, low: nat, high: nat)
    requires EventsOk(events, low, high) && low < t <= high && (forall u: nat :: u in events ==> u < t)
    ensures EventsOk(events + [t], low, high)
  {
    forall i | 0 <= i < |events| ensures events[i] < t { assert events[i] in events; }
  }

  lemma AheadTail(events: seq<nat>, native: seq<NativeItem>)
    requires Ahead(events, native) && native != []
    ensures Ahead(events, native[1..])
    ensures native[0].Note? ==> forall u: nat :: u in events ==> u < native[0].time
  {
    assert native[0] in native;
  }

  lemma AheadAppend(events: seq<nat>, native: seq<NativeItem>, t: nat)
    requires Ahead(events, native) && forall x: NativeItem :: x in native && x.Note? ==> t < x.time
    ensures Ahead(events + [t], native)
  {
  }

  lemma TranslateQueues(s: State)
    requires Queues(s) && s.native != []
    ensures Queues(DoTranslate(s))
  {
    var s' := DoTranslate(s);
    NativeTail(s.native, s.recorded, |s.history|);
    AheadTail(s.events, s.native);
    assert s.native[0] in s.native;
    if s.native[0].Note? && |s.events| < s.eventCap {
      var t := s.native[0].time;
      EventsAppend(s.events, t, s.recorded, |s.history|);
      AheadAppend(s.events, s.native[1..], t);
      assert s'.events == s.events + [t];
    } else {
      assert s'.events == s.events;
    }
    assert s'.native == s.native[1..] && s'.recorded == s.recorded && s'.history == s.history;
  }

  /** DoTranslate touches nothing but the queues. */
  lemma TranslateFrame(s: State)
    requires s.native != []
    ensures var s' := DoTranslate(s);
            s' == s.(native := s.native[1..], events := s'.events, gaps := s'.gaps)
  {
  }

  lemma TranslateBase(s: State)
    requires Base(s) && s.up && s.native != []
    ensures Base(DoTranslate(s))
  {
    var s' := DoTranslate(s);
    TranslateFrame(s);
    TranslateQueues(s);
    assert DiskOk(s') && SavedOk(s');
    assert Recorded(s'.history, s'.journal, s'.when, s'.recorded);
  }

  lemma DeliverCarries(s: State, q: Path)
    requires s.native != [] && s.native[0].Note? && |s.events| < s.eventCap
    ensures Carries(s, DoTranslate(s), q)
  {
    var s' := DoTranslate(s);
    assert s.native == [s.native[0]] + s.native[1..];
    assert forall u: nat :: InFlight(s', u) <==> InFlight(s, u);
  }

  lemma TranslateStep(s: State)
    requires Inv(s) && s.up && s.native != []
    ensures Inv(DoTranslate(s))
  {
    var s' := DoTranslate(s);
    TranslateBase(s);
    TranslateFrame(s);
    TailCovers(s, s');
    if s.native[0].Note? && |s.events| < s.eventCap {
      forall q ensures Carries(s, s', q) { DeliverCarries(s, q); }
      assert s.native == [s.native[0]] + s.native[1..];
      assert Alarm(s) ==> Alarm(s');
    } else {
      assert s'.gaps != [];
      assert Alarm(s');
    }
    assert Flow(s, s');
    FlowKeeps(s, s');
  }

  // ---------------------------------------------------------------- the event loop

  lemma TakeGapBase(s: State, now: nat)
    requires Base(s) && s.up && s.gaps != []
    ensures Base(DoTakeGap(s, now))
  {
    var s' := DoTakeGap(s, now);
    forall p | p in s.when ensures EntryOk(s.history, s'.journal, s.when, s.recorded, p) {
      assert EntryOk(s.history, s.journal, s.when, s.recorded, p);
    }
    forall p, q | p in s.when && q in s.when ensures SameOrder(s'.journal, s.when, p, q) {
      assert SameOrder(s.journal, s.when, p, q);
    }
  }

  lemma TakeGapStep(s: State, now: nat)
    requires Inv(s) && s.up && s.gaps != []
    ensures Inv(DoTakeGap(s, now))
  {
    var s' := DoTakeGap(s, now);
    TakeGapBase(s, now);
    NativeSame(s, s');
    assert Flow(s, s');
    FlowKeeps(s, s');
  }

  lemma KeepsCoverTouches(kind: CJ.Kind, directory: bool, e: CJ.Event, q: Path)
    requires KeepsCover(kind, directory, e)
    requires Touches(CJ.Event(e.path, kind, directory, 0), q)
    ensures Touches(e, q)
  {
  }

  /** The outcome of TakeEvent, spelled out. */
  ghost predicate Taken(s: State, s': State, e: CJ.Event) {
    && s.events != [] && 0 < s.events[0] <= |s.history| && e == s.history[s.events[0] - 1]
    && s' == s.(events := s.events[1..], recorded := s.events[0], journal := s'.journal, when := s'.when)
    && (|| (!CJ.Accepted(e) && s'.journal == s.journal && s'.when == s.when)
        || (CJ.Accepted(e) && s'.journal == CJ.Put(s.journal, CJ.Observed(e)) && s'.when == Remember(s.when, e, s.events[0]))
        || Dropped(s, s'))
  }

  /** Past the bound everything pending became a gap. */
  predicate Dropped(s: State, s': State) {
    && s'.journal.gapSeq == s.journal.gapSeq + 1 && s'.journal.gap.Some?
    && s.journal.sequence <= s'.journal.sequence
    && (s'.journal.gap == s.journal.gap || s'.journal.gap.value.reason == CJ.REASON_BULK)
    && s'.journal.pending == map[] && s'.when == map[]
  }

  lemma RecordOutcome(j: CJ.State, e: CJ.Event, maxPending: nat, now: nat)
    ensures var j' := CJ.Record(j, [e], maxPending, now);
            || (!CJ.Accepted(e) && j' == j)
            || (CJ.Accepted(e) && j' == CJ.Put(j, CJ.Observed(e)) && |j'.pending| > 0)
            || (j' == CJ.MarkGap(CJ.RecordOne(j, e).(pending := map[]), CJ.REASON_BULK, now, now) && |j'.pending| == 0)
  {
    CJ.RecordSingle(j, e, maxPending, now);
    assert CJ.Observed(e).path in CJ.Put(j, CJ.Observed(e)).pending;
  }

  lemma TakeEventTaken(s: State, now: nat)
    requires s.events != [] && 0 < s.events[0] <= |s.history| && s.when.Keys <= s.journal.pending.Keys
    ensures Taken(s, DoTakeEvent(s, now), s.history[s.events[0] - 1])
  {
    RecordOutcome(s.journal, s.history[s.events[0] - 1], s.maxPending, now);
    assert s.journal.pending == map[] ==> s.when == map[];
  }

  /** A faithful recording replaces the entry for the path and moves nothing else. */
  lemma TakenFaithfully(s: State, s': State, e: CJ.Event)
    requires Taken(s, s', e) && RecordsFaithfully(s.journal, e)
    ensures Dropped(s, s') || (s'.journal == CJ.Put(s.journal, e) && s'.when == s.when[e.path := s.events[0]])
  {
    TrimmedIsFixed(e.path);
  }

  lemma EventsTail(events: seq<nat>, native: seq<NativeItem>, low: nat, high: nat)
    requires EventsOk(events, low, high) && NativeTimesOk(native, low, high) && Ahead(events, native) && events != []
    ensures EventsOk(events[1..], events[0], high) && NativeTimesOk(native, events[0], high) && Ahead(events[1..], native)
  {
    assert events[0] in events;
    assert forall t :: t in events[1..] ==> t in events;
  }

  lemma PutNumbered(j: CJ.State, e: CJ.Event)
    requires Numbered(j)
    ensures Numbered(CJ.Put(j, e))
  {
  }

  lemma TakeEventRecorded(s: State, s': State, e: CJ.Event)
    requires Recorded(s.history, s.journal, s.when, s.recorded) && Queues(s) && Taken(s, s', e)
    ensures Recorded(s'.history, s'.journal, s'.when, s'.recorded)
  {
    var t := s.events[0];
    assert s.recorded < t <= |s.history|;
    if CJ.Accepted(e) && s'.journal == CJ.Put(s.journal, CJ.Observed(e)) && s'.when == Remember(s.when, e, t) {
      PutNumbered(s.journal, CJ.Observed(e));
      TrimmedIsFixed(e.path);
      RememberedOk(s.history, s.journal, s.when, s.recorded, CJ.Observed(e), t, s'.when);
    } else if s'.when == s.when && s'.journal == s.journal {
      RecordedGrows(s.history, s.history, s.journal, s.when, s.recorded, t);
    }
  }

  /** Recording keeps the bookkeeping, under the path's own name or by forgetting a replaced one. */
  lemma RememberedOk(h: seq<CJ.Event>, j: CJ.State, when: map<Path, nat>, bound: nat, kept: CJ.Event, t: nat, when': map<Path, nat>)
    requires Recorded(h, j, when, bound) && bound < t <= |h|
    requires when' == when - {kept.path} || (when' == when[kept.path := t] && h[t - 1] == kept)
    ensures Recorded(h, CJ.Put(j, kept), when', t)
  {
    var j' := CJ.Put(j, kept);
    PutNumbered(j, kept);
    forall p | p in when' ensures EntryOk(h, j', when', t, p) {
      if p != kept.path { assert EntryOk(h, j, when, bound, p); }
    }
    forall p, q | p in when' && q in when' ensures SameOrder(j', when', p, q) {
      if p != kept.path { assert EntryOk(h, j, when, bound, p); }
      if q != kept.path { assert EntryOk(h, j, when, bound, q); }
      if p != kept.path && q != kept.path { assert SameOrder(j, when, p, q); }
    }
  }

  lemma TakeEventBase(s: State, now: nat)
    requires Base(s) && s.up && s.events != [] && 0 < s.events[0] <= |s.history|
    ensures Base(DoTakeEvent(s, now)) && Taken(s, DoTakeEvent(s, now), s.history[s.events[0] - 1])
  {
    var s' := DoTakeEvent(s, now);
    var e := s.history[s.events[0] - 1];
    TakeEventTaken(s, now);
    TakeEventRecorded(s, s', e);
    EventsTail(s.events, s.native, s.recorded, |s.history|);
  }

  /** A replaced entry never stood for the last thing that happened to a path it covered. */
  lemma ReplacedIsOld(s: State, e: CJ.Event, q: Path)
    requires Recorded(s.history, s.journal, s.when, s.recorded) && Queues(s)
    requires s.events != [] && 0 < s.events[0] <= |s.history| && e == s.history[s.events[0] - 1]
    requires e.path in s.when && KeepsCover(s.journal.pending[e.path].kind, s.journal.pending[e.path].directory, e)
    ensures s.when[e.path] != LastTouch(s.history, q)
  {
    var last := LastTouch(s.history, q);
    if s.when[e.path] == last {
      var prior := s.journal.pending[e.path];
      assert EntryOk(s.history, s.journal, s.when, s.recorded, e.path);
      KeepsCoverTouches(prior.kind, prior.directory, e, q);
      LastTouchIsLast(s.history, s.events[0], q);
    }
  }

  lemma TakeEventLive(s: State, s': State, e: CJ.Event)
    requires Taken(s, s', e) && s'.journal == CJ.Put(s.journal, e) && s'.when == s.when[e.path := s.events[0]]
    ensures forall u: nat :: IsLive(s', u) ==> IsLive(s, u)
    ensures forall u: nat :: IsLive(s, u) && !IsLive(s', u) ==> e.path in s.when && s.when[e.path] == u
  {
    var t := s.events[0];
    assert s.events == [t] + s.events[1..];
    assert s'.when[e.path] == t;
    forall u: nat | IsLive(s', u) ensures IsLive(s, u) {
      if u in s'.when.Values && u != t {
        var p :| p in s'.when && s'.when[p] == u;
        assert s.when[p] == u;
      }
    }
    forall p | p in s.when && p != e.path ensures s.when[p] in s'.when.Values {
      assert s'.when[p] == s.when[p];
    }
  }

  lemma TakeEventCarries(s: State, s': State, e: CJ.Event, q: Path)
    requires Recorded(s.history, s.journal, s.when, s.recorded) && Queues(s)
    requires Taken(s, s', e) && s'.journal == CJ.Put(s.journal, e) && s'.when == s.when[e.path := s.events[0]]
    requires RecordsFaithfully(s.journal, e)
    ensures Carries(s, s', q)
  {
    TakeEventLive(s, s', e);
    if e.path in s.when {
      ReplacedIsOld(s, e, q);
    }
  }

  lemma TakeEventFlow(s: State, s': State, e: CJ.Event)
    requires Inv(s) && s.up && Taken(s, s', e) && RecordsFaithfully(s.journal, e)
    ensures Flow(s, s')
  {
    assert s.recorded < s.events[0];
    TakenFaithfully(s, s', e);
    if s'.journal.gapSeq == s.journal.gapSeq {
      forall q ensures Carries(s, s', q) { TakeEventCarries(s, s', e, q); }
    }
  }

  lemma TakeEventStep(s: State, now: nat)
    requires Inv(s) && s.up && s.events != [] && 0 < s.events[0] <= |s.history|
    requires RecordsFaithfully(s.journal, s.history[s.events[0] - 1])
    ensures Inv(DoTakeEvent(s, now))
  {
    var s' := DoTakeEvent(s, now);
    var e := s.history[s.events[0] - 1];
    TakeEventBase(s, now);
    NativeSame(s, s');
    TakenFaithfully(s, s', e);
    assert Bookkeeping(s');
    TakeEventFlow(s, s', e);
    FlowKeeps(s, s');
  }
}
