/** The drain, the index service, and the process starting and stopping keep the invariant. */
module ProtocolDrains {
  import opened Text
  import CJ = ChangeJournal
  import opened Protocol
  import opened ProtocolInvariant

  // ---------------------------------------------------------------- taking a snapshot

  ghost predicate Listed(entries: seq<CJ.Entry>, j: CJ.State, when: map<Path, nat>) {
    && CJ.Ordered(entries)
    && forall i :: 0 <= i < |entries| ==>
         entries[i].path in j.pending && j.pending[entries[i].path] == entries[i] && entries[i].path in when
  }

  lemma ItemsStep(entries: seq<CJ.Entry>, when: map<Path, nat>)
    requires entries != [] && entries[|entries| - 1].path in when
    ensures var n, e := |entries| - 1, entries[|entries| - 1];
            var items, all := Items(entries[..n], when), Items(entries, when);
            && (if Effective(e) then all == items + [all[|items|]] && |all| == |items| + 1 else all == items)
            && (Effective(e) ==> all[|items|] == Item(e.path, e.kind == CJ.Removed, e.kind == CJ.Removed && e.directory, when[e.path]))
  {
  }

  lemma TodoAppend(h: seq<CJ.Event>, todo: seq<Item>, item: Item, bound: nat)
    requires TodoOk(h, todo, bound) && 0 < item.time <= bound && ItemMatches(item, h[item.time - 1])
    requires forall i :: 0 <= i < |todo| ==> todo[i].time < item.time
    ensures TodoOk(h, todo + [item], bound)
  {
  }

  /** The operations of a listing stand for its observations, in time order. */
  lemma {:induction false} ItemsOk(h: seq<CJ.Event>, entries: seq<CJ.Entry>, j: CJ.State, when: map<Path, nat>, bound: nat)
    requires Recorded(h, j, when, bound) && Listed(entries, j, when)
    ensures TodoOk(h, Items(entries, when), bound)
    ensures forall i :: 0 <= i < |Items(entries, when)| ==> Items(entries, when)[i].time in when.Values
    ensures entries == [] ==> Items(entries, when) == []
    ensures entries != [] ==> forall i :: 0 <= i < |Items(entries, when)| ==>
              Items(entries, when)[i].time <= when[entries[|entries| - 1].path]
  {
    if entries != [] {
      var n := |entries| - 1;
      var e := entries[n];
      ItemsOk(h, entries[..n], j, when, bound);
      ItemsStep(entries, when);
      assert EntryOk(h, j, when, bound, e.path);
      if n > 0 {
        assert SameOrder(j, when, entries[n - 1].path, e.path);
        assert entries[..n][n - 1] == entries[n - 1];
      }
      var items, all := Items(entries[..n], when), Items(entries, when);
      assert forall i :: 0 <= i < |items| ==> items[i].time < when[e.path];
      if Effective(e) {
        TodoAppend(h, items, all[|items|], bound);
      }
    }
  }

  /** Every entry that needs an operation has one. */
  lemma {:induction false} ItemsComplete(entries: seq<CJ.Entry>, when: map<Path, nat>, i: nat)
    requires forall k :: 0 <= k < |entries| ==> entries[k].path in when
    requires i < |entries| && Effective(entries[i])
    ensures TimeIn(Items(entries, when), when[entries[i].path])
  {
    var n := |entries| - 1;
    ItemsStep(entries, when);
    var items, all := Items(entries[..n], when), Items(entries, when);
    if i < n {
      ItemsComplete(entries[..n], when, i);
      var k :| 0 <= k < |items| && items[k].time == when[entries[i].path];
      assert all[k] == items[k];
    } else {
      assert all[|items|].time == when[entries[i].path];
    }
  }

  lemma ListsListed(entries: seq<CJ.Entry>, s: State)
    requires Recorded(s.history, s.journal, s.when, s.recorded) && s.journal.pending.Keys <= s.when.Keys
    requires CJ.Lists(entries, s.journal.pending)
    ensures Listed(entries, s.journal, s.when)
  {
    forall i | 0 <= i < |entries|
      ensures entries[i].path in s.journal.pending && s.journal.pending[entries[i].path] == entries[i]
    {
      assert entries[i] in s.journal.pending.Values;
      var p :| p in s.journal.pending && s.journal.pending[p] == entries[i];
      assert EntryOk(s.history, s.journal, s.when, s.recorded, p);
    }
  }

  lemma HitsTouches(item: Item, e: CJ.Event, q: Path)
    requires ItemMatches(item, e)
    ensures Hits(item, q) <==> Touches(e, q)
  {
  }

  lemma LastIsEffective(s: State, p: Path, q: Path)
    requires Recorded(s.history, s.journal, s.when, s.recorded)
    requires p in s.when && s.when[p] == LastTouch(s.history, q)
    ensures p in s.journal.pending && s.journal.pending[p].path == p && Effective(s.journal.pending[p])
  {
    assert EntryOk(s.history, s.journal, s.when, s.recorded, p);
  }

  /** When the last thing that happened to `q` is pending, it has an operation among the listed ones. */
  lemma PendingHasItem(s: State, entries: seq<CJ.Entry>, q: Path)
    requires Recorded(s.history, s.journal, s.when, s.recorded) && s.journal.pending.Keys <= s.when.Keys
    requires CJ.Lists(entries, s.journal.pending)
    requires LastTouch(s.history, q) in s.when.Values
    ensures TimeIn(Items(entries, s.when), LastTouch(s.history, q))
  {
    var p :| p in s.when && s.when[p] == LastTouch(s.history, q);
    LastIsEffective(s, p, q);
    assert s.journal.pending[p] in entries;
    var i :| 0 <= i < |entries| && entries[i] == s.journal.pending[p];
    assert forall k :: 0 <= k < |entries| ==> entries[k].path in s.when by { ListsListed(entries, s); }
    ItemsComplete(entries, s.when, i);
  }

  lemma InFlightIsNewer(s: State, t: nat)
    requires Queues(s) && InFlight(s, t)
    ensures t > s.recorded
  {
  }

  lemma SnapshotRemovalOk(s: State, q: Path)
    requires Bookkeeping(s) && s.up && Agree(s, s.index, 0, q)
    ensures RemovalOk(s, s.recorded, q)
  {
    if !LastAfter(s, s.recorded, q) {
      forall t: nat | t > s.recorded && IsLive(s, t) ensures !Removes(s.history, t, q) {
        if Removes(s.history, t, q) {
          LastTouchIsLast(s.history, t, q);
        }
      }
    }
  }

  lemma SnapshotDeletesNothing(s: State, entries: seq<CJ.Entry>, q: Path)
    requires Bookkeeping(s) && s.up && CJ.Lists(entries, s.journal.pending)
    requires s.journal.gap.None? && Agree(s, s.index, 0, q) && !LastAfter(s, 0, q)
    ensures var items := DoSnapshot(s, entries).drain.value.items;
            forall i :: 0 <= i < |items| && items[i].deleted ==> !Hits(items[i], q)
  {
    var d := DoSnapshot(s, entries).drain.value;
    ListsListed(entries, s);
    ItemsOk(s.history, entries, s.journal, s.when, s.recorded);
    forall i | 0 <= i < |d.items| && d.items[i].deleted ensures !Hits(d.items[i], q) {
      HitsTouches(d.items[i], s.history[d.items[i].time - 1], q);
      assert IsLive(s, d.items[i].time);
    }
  }

  lemma SnapshotDelta(s: State, entries: seq<CJ.Entry>, q: Path)
    requires Bookkeeping(s) && s.up && CJ.Lists(entries, s.journal.pending)
    requires s.journal.gap.None? && Agree(s, s.index, 0, q)
    ensures var s' := DoSnapshot(s, entries); DrainAgree(s', s'.drain.value, q)
  {
    var s' := DoSnapshot(s, entries);
    var d := s'.drain.value;
    var last := LastTouch(s.history, q);
    SnapshotRemovalOk(s, q);
    assert RemovalOk(s', d.horizon, q);
    if LastAfter(s, 0, q) {
      if last <= s.recorded {
        if InFlight(s, last) { InFlightIsNewer(s, last); }
        PendingHasItem(s, entries, q);
      }
    } else {
      SnapshotDeletesNothing(s, entries, q);
    }
  }

  lemma PendingIsOld(s: State, t: nat)
    requires Recorded(s.history, s.journal, s.when, s.recorded) && t in s.when.Values
    ensures t <= s.recorded
  {
    var p :| p in s.when && s.when[p] == t;
    assert EntryOk(s.history, s.journal, s.when, s.recorded, p);
  }

  lemma QueuedRemovalIsFollowed(s: State, t: nat, q: Path)
    requires Queues(s) && NativeOk(s) && !Alarm(s)
    requires Note(t) in s.native && Removes(s.history, t, q)
    ensures LastAfter(s, s.recorded, q)
  {
    var i :| 0 <= i < |s.native| && s.native[i] == Note(t);
    assert NativeCovers(s, i, q);
    assert Note(LastTouch(s.history, q)) in s.native;
    InFlightIsNewer(s, LastTouch(s.history, q));
  }

  lemma SnapshotReconcile(s: State, q: Path)
    requires Bookkeeping(s) && s.up && !Alarm(s)
    requires forall i :: 0 <= i < |s.events| && 0 < s.events[i] <= |s.history| ==> s.history[s.events[i] - 1].kind != CJ.Removed
    ensures RemovalOk(s, s.recorded, q)
  {
    if !LastAfter(s, s.recorded, q) {
      forall t: nat | t > s.recorded && IsLive(s, t) ensures !Removes(s.history, t, q) {
        if t in s.when.Values { PendingIsOld(s, t); }
        if Removes(s.history, t, q) {
          assert t !in s.events;
          QueuedRemovalIsFollowed(s, t, q);
        }
      }
    }
  }

  lemma SnapshotMark(s: State, entries: seq<CJ.Entry>)
    requires Inv(s) && Enabled(s, Snapshot(entries)) && Disciplined(s, Snapshot(entries))
    ensures MarkOk(DoSnapshot(s, entries), DoSnapshot(s, entries).drain.value)
  {
    var s' := DoSnapshot(s, entries);
    var d := s'.drain.value;
    if !d.reconcile {
      ListsListed(entries, s);
      ItemsOk(s.history, entries, s.journal, s.when, s.recorded);
    }
    forall p | p in s.when && p in s.journal.pending
      ensures s.journal.pending[p].num <= d.mark.sequence && s.when[p] <= d.horizon
      ensures !d.reconcile && Effective(s.journal.pending[p]) ==> TimeIn(d.items, s.when[p])
    {
      assert EntryOk(s.history, s.journal, s.when, s.recorded, p);
      assert s.journal.pending[p] in entries;
      if !d.reconcile && Effective(s.journal.pending[p]) {
        var i :| 0 <= i < |entries| && entries[i] == s.journal.pending[p];
        ItemsComplete(entries, s.when, i);
      }
    }
  }

  lemma SnapshotStep(s: State, entries: seq<CJ.Entry>)
    requires Inv(s) && Enabled(s, Snapshot(entries)) && Disciplined(s, Snapshot(entries))
    ensures Inv(DoSnapshot(s, entries))
  {
    var s' := DoSnapshot(s, entries);
    var d := s'.drain.value;
    SnapshotMark(s, entries);
    if !NewAlarm(s', d) {
      forall q ensures DrainAgree(s', d, q) {
        if d.reconcile {
          SnapshotReconcile(s, q);
          assert RemovalOk(s', d.horizon, q);
        } else {
          SnapshotDelta(s, entries, q);
        }
      }
    }
    StillBookkeeping(s, s');
    assert IndexOk(s') by {
      if !GapCover(s') { forall q ensures Agree(s', s'.index, 0, q) { assert Agree(s, s.index, 0, q); } }
    }
    assert JobOk(s') by {
      if s'.job.Some? && !GapCover(s') { forall q ensures JobAgree(s', s'.job.value, q) { assert JobAgree(s, s.job.value, q); } }
    }
  }

  // ---------------------------------------------------------------- steps of the service

  /** Everything but index, drain and job is the same. */
  ghost predicate Still(s: State, s': State) {
    s' == s.(index := s'.index, drain := s'.drain, job := s'.job)
  }

  lemma StillSame(s: State, s': State, q: Path)
    requires Still(s, s')
    ensures forall after: nat :: LastAfter(s', after, q) == LastAfter(s, after, q)
    ensures forall after: nat :: RemovalFree(s', after, q) == RemovalFree(s, after, q)
  {
  }

  lemma StillBookkeeping(s: State, s': State)
    requires Still(s, s') && Bookkeeping(s) && (s'.drain.Some? ==> s.up)
    ensures Bookkeeping(s')
  {
    if s.up { NativeSame(s, s'); }
  }

  lemma StillBase(s: State, s': State)
    requires Still(s, s') && Base(s) && (s'.drain.Some? ==> s.up)
    ensures Base(s')
  {
  }

  lemma StillMarkOk(s: State, s': State, d: Drain, d': Drain)
    requires Still(s, s') && MarkOk(s, d) && d' == d.(phase := d'.phase)
    ensures MarkOk(s', d')
  {
  }

  lemma ServeStep(s: State)
    requires Inv(s) && Enabled(s, Serve)
    ensures Inv(DoServe(s))
  {
    var s' := DoServe(s);
    var d, d' := s.drain.value, s'.drain.value;
    StillBookkeeping(s, s');
    StillMarkOk(s, s', d, d');
    if !GapCover(s') {
      forall q ensures Agree(s', s'.index, 0, q) && JobAgree(s', s'.job.value, q) {
        StillSame(s, s', q);
        assert Agree(s, s.index, 0, q);
        assert DrainAgree(s, d, q);
      }
    }
    if !NewAlarm(s', d') {
      forall q ensures DrainAgree(s', d', q) {
        StillSame(s, s', q);
        assert DrainAgree(s, d, q);
      }
    }
  }

  lemma ApplyItemAt(work: map<Path, Content>, item: Item, fs: map<Path, Content>, q: Path)
    ensures At(ApplyItem(work, item, fs), q) ==
              if item.deleted then (if Hits(item, q) then None else At(work, q))
              else if item.path == q then At(fs, q) else At(work, q)
  {
  }

  lemma NoDeletesTail(todo: seq<Item>, q: Path)
    requires todo != []
    ensures NoDeletes(todo, q) <==> !(todo[0].deleted && Hits(todo[0], q)) && NoDeletes(todo[1..], q)
  {
    var tail := todo[1..];
    if NoDeletes(tail, q) && !(todo[0].deleted && Hits(todo[0], q)) {
      forall i | 0 <= i < |todo| && todo[i].deleted ensures !Hits(todo[i], q) {
        if i > 0 { assert tail[i - 1] == todo[i]; }
      }
    }
    if NoDeletes(todo, q) {
      forall i | 0 <= i < |tail| && tail[i].deleted ensures !Hits(tail[i], q) { assert tail[i] == todo[i + 1]; }
    }
  }

  lemma TodoTail(h: seq<CJ.Event>, todo: seq<Item>, bound: nat)
    requires TodoOk(h, todo, bound) && todo != []
    ensures TodoOk(h, todo[1..], bound)
  {
    var t := todo[1..];
    assert forall i :: 0 <= i < |t| ==> t[i] == todo[i + 1];
  }

  lemma TimeInTail(todo: seq<Item>, t: nat)
    requires todo != [] && TimeIn(todo, t) && todo[0].time != t
    ensures TimeIn(todo[1..], t)
  {
    var i :| 0 <= i < |todo| && todo[i].time == t;
    assert todo[1..][i - 1].time == t;
  }

  lemma ApplyJobAgree(s: State, s': State, q: Path)
    requires Still(s, s') && s.job.Some? && s.job.value.Delta? && s.job.value.todo != []
    requires var j := s.job.value; s'.job == Some(Delta(ApplyItem(j.work, j.todo[0], s.fs), j.todo[1..]))
    requires JobAgree(s, s.job.value, q)
    ensures JobAgree(s', s'.job.value, q)
  {
    StillSame(s, s', q);
    ApplyItemAt(s.job.value.work, s.job.value.todo[0], s.fs, q);
    NoDeletesTail(s.job.value.todo, q);
  }

  /** Applying the operation for the last thing that happened to `q` makes the work right about `q`. */
  lemma ApplyLast(s: State, todo: seq<Item>, bound: nat, work: map<Path, Content>, q: Path)
    requires DiskOk(s) && TodoOk(s.history, todo, bound) && todo != []
    requires todo[0].time == LastTouch(s.history, q)
    ensures At(ApplyItem(work, todo[0], s.fs), q) == At(s.fs, q) && NoDeletes(todo[1..], q)
  {
    var e := s.history[todo[0].time - 1];
    HitsTouches(todo[0], e, q);
    ApplyItemAt(work, todo[0], s.fs, q);
    forall i | 0 <= i < |todo[1..]| && todo[1..][i].deleted ensures !Hits(todo[1..][i], q) {
      var item := todo[i + 1];
      HitsTouches(item, s.history[item.time - 1], q);
      if Hits(item, q) { LastTouchIsLast(s.history, item.time, q); }
    }
  }

  lemma ApplyDrainAgree(s: State, s': State, d: Drain, q: Path)
    requires Still(s, s') && s.job.Some? && s.job.value.Delta? && s.job.value.todo != [] && s'.index == s.index
    requires var j := s.job.value; s'.job == Some(Delta(ApplyItem(j.work, j.todo[0], s.fs), j.todo[1..]))
    requires DiskOk(s) && PhaseOk(s, d) && d.phase == Serving && DrainAgree(s, d, q)
    ensures DrainAgree(s', d, q)
  {
    var work, todo := s.job.value.work, s.job.value.todo;
    var last := LastTouch(s.history, q);
    StillSame(s, s', q);
    if !LastAfter(s, d.horizon, q) {
      if TimeIn(todo, last) {
        if todo[0].time == last {
          ApplyLast(s, todo, d.horizon, work, q);
        } else {
          TimeInTail(todo, last);
        }
      } else {
        ApplyItemAt(work, todo[0], s.fs, q);
        NoDeletesTail(todo, q);
      }
    }
  }

  /** A step inside the job: the index stands still and an unattached drain notices nothing. */
  lemma JobStepKeeps(s: State, s': State)
    requires Inv(s) && Still(s, s') && s'.index == s.index && s'.drain == s.drain && s.job.Some? && s'.job.Some?
    requires !GapCover(s) && s.up ==> forall q :: JobAgree(s', s'.job.value, q)
    requires Attached(s) ==> PhaseOk(s', s.drain.value)
    requires Attached(s) && !NewAlarm(s, s.drain.value) ==> forall q :: DrainAgree(s', s.drain.value, q)
    ensures Inv(s')
  {
    StillBookkeeping(s, s');
    assert IndexOk(s') by {
      if s.up && !GapCover(s') { forall q ensures Agree(s', s'.index, 0, q) { StillSame(s, s', q); assert Agree(s, s.index, 0, q); } }
    }
    if s.drain.Some? {
      var d := s.drain.value;
      StillMarkOk(s, s', d, d);
      if !NewAlarm(s', d) && !Attached(s) {
        forall q ensures DrainAgree(s', d, q) {
          StillSame(s, s', q);
          assert DrainAgree(s, d, q);
        }
      }
    }
  }

  lemma ApplyNextStep(s: State)
    requires Inv(s) && Enabled(s, ApplyNext)
    ensures Inv(Do(s, ApplyNext))
  {
    var s' := Do(s, ApplyNext);
    if s.up && !GapCover(s) {
      forall q ensures JobAgree(s', s'.job.value, q) { assert JobAgree(s, s.job.value, q); ApplyJobAgree(s, s', q); }
    }
    if Attached(s) {
      var d := s.drain.value;
      TodoTail(s.history, s.job.value.todo, d.horizon);
      if !NewAlarm(s, d) {
        forall q ensures DrainAgree(s', d, q) { assert DrainAgree(s, d, q); ApplyDrainAgree(s, s', d, q); }
      }
    }
    JobStepKeeps(s, s');
  }

  lemma EscalateStep(s: State)
    requires Inv(s) && Enabled(s, Escalate)
    ensures Inv(Do(s, Escalate))
  {
    var s' := Do(s, Escalate);
    if s.up && !GapCover(s) {
      forall q ensures JobAgree(s', s'.job.value, q) { StillSame(s, s', q); assert Agree(s, s.index, 0, q); }
    }
    if Attached(s) && !NewAlarm(s, s.drain.value) {
      forall q ensures DrainAgree(s', s.drain.value, q) { StillSame(s, s', q); assert DrainAgree(s, s.drain.value, q); }
    }
    JobStepKeeps(s, s');
  }

  lemma ReadStep(s: State, p: Path)
    requires Inv(s) && Enabled(s, Read(p))
    ensures Inv(Do(s, Read(p)))
  {
    var s' := Do(s, Read(p));
    if s.up && !GapCover(s) {
      forall q ensures JobAgree(s', s'.job.value, q) {
        StillSame(s, s', q);
        assert JobAgree(s, s.job.value, q) && Agree(s, s.index, 0, q);
      }
    }
    if Attached(s) && !NewAlarm(s, s.drain.value) {
      forall q ensures DrainAgree(s', s.drain.value, q) { StillSame(s, s', q); assert DrainAgree(s, s.drain.value, q); }
    }
    JobStepKeeps(s, s');
  }

  lemma PublishDrainAgree(s: State, s': State, d: Drain, d': Drain, q: Path)
    requires Still(s, s') && s.job.Some? && Finished(s.job.value) && s'.index == s.job.value.work && s'.job.None?
    requires DrainAgree(s, d, q) && d.phase != Answered
    requires d' == if d.phase == Serving then d.(phase := Answered) else d
    requires MarkOk(s, d) && Recorded(s.history, s.journal, s.when, s.recorded) && Queues(s)
    requires d.phase == Asked && !d.reconcile ==> JobAgree(s, s.job.value, q)
    ensures DrainAgree(s', d', q)
  {
    StillSame(s, s', q);
    var last := LastTouch(s.history, q);
    if d.phase == Asked && !d.reconcile && LastAfter(s, 0, q) && last <= d.horizon {
      if InFlight(s, last) { InFlightIsNewer(s, last); }
      var p :| p in s.when && s.when[p] == last;
      LastIsEffective(s, p, q);
      assert TimeIn(d.items, last);
    }
  }

  lemma PublishStep(s: State)
    requires Inv(s) && Enabled(s, Publish)
    ensures Inv(DoPublish(s))
  {
    var s' := DoPublish(s);
    StillBookkeeping(s, s');
    if s.up && !GapCover(s') {
      forall q ensures Agree(s', s'.index, 0, q) { StillSame(s, s', q); assert JobAgree(s, s.job.value, q); }
    }
    if s.drain.Some? {
      var d, d' := s.drain.value, s'.drain.value;
      StillMarkOk(s, s', d, d');
      if !NewAlarm(s', d') {
        forall q ensures DrainAgree(s', d', q) {
          assert DrainAgree(s, d, q);
          assert d.phase == Asked && !d.reconcile ==> JobAgree(s, s.job.value, q);
          PublishDrainAgree(s, s', d, d', q);
        }
      }
    }
  }

  /** The request fails, or the worker stops waiting: nothing is acknowledged, so nothing is lost. */
  lemma DropStep(s: State, s': State)
    requires Inv(s) && Still(s, s') && s'.index == s.index
    requires s'.job == s.job || s'.job.None?
    requires s'.drain.None? || (s'.drain == s.drain && (s'.job == s.job || !Attached(s)))
    ensures Inv(s')
  {
    StillBookkeeping(s, s');
    if s.up && !GapCover(s') {
      forall q ensures Agree(s', s'.index, 0, q) { StillSame(s, s', q); assert Agree(s, s.index, 0, q); }
      if s'.job.Some? {
        forall q ensures JobAgree(s', s'.job.value, q) { StillSame(s, s', q); assert JobAgree(s, s.job.value, q); }
      }
    }
    if s'.drain.Some? {
      var d := s.drain.value;
      StillMarkOk(s, s', d, d);
      if !NewAlarm(s', d) {
        forall q ensures DrainAgree(s', d, q) { StillSame(s, s', q); assert DrainAgree(s, d, q); }
      }
    }
  }

  // ---------------------------------------------------------------- acknowledging

  /** Deleting entries from both maps keeps the bookkeeping. */
  lemma FewerRecorded(h: seq<CJ.Event>, j: CJ.State, when: map<Path, nat>, bound: nat, j': CJ.State, when': map<Path, nat>)
    requires Recorded(h, j, when, bound)
    requires j'.sequence == j.sequence && (j'.gap.None? || j'.gap == j.gap)
    requires forall p :: p in j'.pending ==> p in j.pending && j'.pending[p] == j.pending[p]
    requires forall p :: p in when' ==> p in when && when'[p] == when[p] && p in j'.pending
    ensures Recorded(h, j', when', bound)
  {
    forall p | p in when' ensures EntryOk(h, j', when', bound, p) {
      assert EntryOk(h, j, when, bound, p);
    }
    forall p, q | p in when' && q in when' ensures SameOrder(j', when', p, q) {
      assert SameOrder(j, when, p, q);
    }
  }

  lemma AcknowledgeBase(s: State, generation: nat)
    requires Base(s) && s.up && s.drain.Some?
    ensures Base(DoAcknowledge(s, generation))
  {
    var s' := DoAcknowledge(s, generation);
    FewerRecorded(s.history, s.journal, s.when, s.recorded, s'.journal, s'.when);
  }

  /** What is left live after an acknowledgement is what was live and newer than the horizon. */
  lemma AcknowledgeLive(s: State, generation: nat, t: nat)
    requires Bookkeeping(s) && s.up && s.drain.Some? && MarkOk(s, s.drain.value)
    ensures IsLive(DoAcknowledge(s, generation), t) <==> IsLive(s, t) && t > s.drain.value.horizon
  {
    var s' := DoAcknowledge(s, generation);
    if InFlight(s, t) {
      InFlightIsNewer(s, t);
    } else {
      if t in s'.when.Values {
        var p :| p in s'.when && s'.when[p] == t;
        assert s.when[p] == t;
      }
      if t in s.when.Values && t > s.drain.value.horizon {
        var p :| p in s.when && s.when[p] == t;
        assert s'.when[p] == t;
      }
    }
  }

  lemma AcknowledgeStep(s: State, generation: nat)
    requires Inv(s) && Enabled(s, Acknowledge(generation))
    ensures Inv(DoAcknowledge(s, generation))
  {
    var s' := DoAcknowledge(s, generation);
    var d := s.drain.value;
    AcknowledgeBase(s, generation);
    NativeSame(s, s');
    if !GapCover(s') {
      assert !NewAlarm(s, d);
      forall q ensures Agree(s', s'.index, 0, q) {
        assert DrainAgree(s, d, q);
        AcknowledgeLive(s, generation, LastTouch(s.history, q));
        forall t: nat | t > 0 && IsLive(s', t) && !LastAfter(s, d.horizon, q) ensures !Removes(s'.history, t, q) {
          AcknowledgeLive(s, generation, t);
        }
      }
    }
  }

  // ---------------------------------------------------------------- the process

  lemma SaveBase(s: State)
    requires Base(s) && s.up
    ensures Base(Do(s, Save))
  {
    forall p | p in s.when ensures EntryOk(s.history, s.journal, s.when, |s.history|, p) {
      assert EntryOk(s.history, s.journal, s.when, s.recorded, p);
    }
  }

  lemma SaveStep(s: State)
    requires Inv(s) && s.up
    ensures Inv(Do(s, Save))
  {
    var s' := Do(s, Save);
    SaveBase(s);
    NativeSame(s, s');
    SavedSame(s, s');
  }

  /** The stored document plays no part while the process runs. */
  lemma SavedSame(s: State, s': State)
    requires Inv(s) && s' == s.(disk := s'.disk) && Bookkeeping(s')
    ensures Inv(s')
  {
    if s.up && !GapCover(s) {
      forall q ensures Agree(s', s'.index, 0, q) { assert Agree(s, s.index, 0, q); }
      if s.job.Some? { forall q ensures JobAgree(s', s'.job.value, q) { assert JobAgree(s, s.job.value, q); } }
    }
    if s.drain.Some? && !NewAlarm(s, s.drain.value) {
      forall q ensures DrainAgree(s', s'.drain.value, q) { assert DrainAgree(s, s.drain.value, q); }
    }
  }

  /** A gap on top of a recorded journal. */
  lemma MarkedRecorded(h: seq<CJ.Event>, j: CJ.State, when: map<Path, nat>, bound: nat, bound': nat, reason: string, now: nat)
    requires Recorded(h, j, when, bound) && bound <= bound' <= |h| && reason != ""
    ensures Recorded(h, CJ.MarkGap(j, reason, now, now), when, bound')
  {
    var j' := CJ.MarkGap(j, reason, now, now);
    forall p | p in when ensures EntryOk(h, j', when, bound', p) {
      assert EntryOk(h, j, when, bound, p);
    }
    forall p, q | p in when && q in when ensures SameOrder(j', when, p, q) {
      assert SameOrder(j, when, p, q);
    }
  }

  lemma StopBase(s: State, reason: string, now: nat)
    requires Base(s) && Enabled(s, Stop(reason, now))
    ensures Base(Do(s, Stop(reason, now)))
  {
    MarkedRecorded(s.history, s.journal, s.when, s.recorded, |s.history|, reason, now);
  }

  lemma ReopenBase(s: State, now: nat)
    requires Base(s) && !s.up
    ensures Base(Do(s, Reopen(now))) && Do(s, Reopen(now)).journal.gap.Some?
  {
    var s' := Do(s, Reopen(now));
    if s.disk.Some? {
      MarkedRecorded(s.history, s.disk.value.journal, s.disk.value.when, |s.history|, |s.history|, CJ.REASON_STARTED, now);
    }
    assert Recorded(s'.history, s'.journal, s'.when, s'.recorded);
  }
}
