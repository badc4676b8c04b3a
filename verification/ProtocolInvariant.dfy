/** The inductive invariant of the change-tracking protocol. */
module ProtocolInvariant {
  import CJ = ChangeJournal
  import opened Protocol

  // ---------------------------------------------------------------- notifications

  /** A notification still in the system: on its way to the journal, or pending in it. */
  predicate IsLive(s: State, t: nat) { InFlight(s, t) || t in s.when.Values }

  predicate Removes(h: seq<CJ.Event>, t: nat, q: Path) {
    0 < t <= |h| && h[t - 1].kind == CJ.Removed && Touches(h[t - 1], q)
  }

  /** No live removal newer than `after` would delete `q`. */
  ghost predicate RemovalFree(s: State, after: nat, q: Path) {
    forall t: nat :: t > after && IsLive(s, t) ==> !Removes(s.history, t, q)
  }

  /** The last thing that happened to `q` is newer than `after` and still live. */
  predicate LastAfter(s: State, after: nat, q: Path) {
    LastTouch(s.history, q) > after && IsLive(s, LastTouch(s.history, q))
  }

  ghost predicate RemovalOk(s: State, after: nat, q: Path) {
    LastAfter(s, after, q) || RemovalFree(s, after, q)
  }

  /** A copy of the index is right about `q`, or what made it wrong is still to be applied. */
  ghost predicate Agree(s: State, store: map<Path, Content>, after: nat, q: Path) {
    LastAfter(s, after, q) || (At(store, q) == At(s.fs, q) && RemovalFree(s, after, q))
  }

  // ---------------------------------------------------------------- bookkeeping

  predicate Matches(entry: CJ.Entry, e: CJ.Event, p: Path) {
    e.path == p && entry.path == p && entry.kind == e.kind && entry.directory == e.directory
  }

  predicate EntryOk(h: seq<CJ.Event>, j: CJ.State, when: map<Path, nat>, bound: nat, p: Path)
    requires bound <= |h| && p in when && p in j.pending
  {
    0 < when[p] <= bound && Matches(j.pending[p], h[when[p] - 1], p)
  }

  predicate SameOrder(j: CJ.State, when: map<Path, nat>, p: Path, q: Path)
    requires p in when && p in j.pending && q in when && q in j.pending
  {
    j.pending[p].num < j.pending[q].num <==> when[p] < when[q]
  }

  /** Entries are keyed by path and numbered apart, up to the journal's counter. */
  ghost predicate Numbered(j: CJ.State) {
    && CJ.SelfKeyed(j.pending) && CJ.Distinct(j.pending)
    && (forall p :: p in j.pending ==> j.pending[p].num <= j.sequence)
  }

  /** What `when` names is pending and stands for that observation, in the same order. */
  ghost predicate Recorded(h: seq<CJ.Event>, j: CJ.State, when: map<Path, nat>, bound: nat) {
    && Numbered(j)
    && when.Keys <= j.pending.Keys
    && bound <= |h|
    && (forall p :: p in when ==> EntryOk(h, j, when, bound, p))
    && (forall p, q :: p in when && q in when ==> SameOrder(j, when, p, q))
    && (j.gap.Some? ==> j.gap.value.reason != "")
  }

  ghost predicate EventsOk(events: seq<nat>, low: nat, high: nat) {
    && (forall i :: 0 <= i < |events| ==> low < events[i] <= high)
    && (forall i, j :: 0 <= i < j < |events| ==> events[i] < events[j])
  }

  ghost predicate NativeTimesOk(native: seq<NativeItem>, low: nat, high: nat) {
    && (forall x: NativeItem :: x in native && x.Note? ==> low < x.time <= high)
    && (forall i, j :: 0 <= i < j < |native| && native[i].Note? && native[j].Note? ==> native[i].time < native[j].time)
  }

  ghost predicate Ahead(events: seq<nat>, native: seq<NativeItem>) {
    forall t: nat, x: NativeItem :: t in events && x in native && x.Note? ==> t < x.time
  }

  /** Both queues hold positions of the log in order, the channel ahead of the native queue. */
  ghost predicate Queues(s: State) {
    && EventsOk(s.events, s.recorded, |s.history|)
    && NativeTimesOk(s.native, s.recorded, |s.history|)
    && Ahead(s.events, s.native)
  }

  /** What follows a queued removal in the native queue includes the path's last notification, or a loss. */
  ghost predicate NativeOk(s: State) {
    forall i, q :: 0 <= i < |s.native| && s.native[i].Note? && Removes(s.history, s.native[i].time, q) ==>
                     NativeCovers(s, i, q)
  }

  predicate NativeCovers(s: State, i: nat, q: Path)
    requires i <= |s.native|
  {
    Note(LastTouch(s.history, q)) in s.native[i..] || Overflow in s.native[i..]
  }

  lemma NativeSame(s: State, s': State)
    requires NativeOk(s) && s'.native == s.native && s'.history == s.history
    ensures NativeOk(s')
  {
    forall i, q | 0 <= i < |s'.native| && s'.native[i].Note? && Removes(s'.history, s'.native[i].time, q)
      ensures NativeCovers(s', i, q)
    {
      assert NativeCovers(s, i, q);
    }
  }

  ghost predicate DiskOk(s: State) {
    forall q :: Removes(s.history, LastTouch(s.history, q), q) ==> q !in s.fs
  }

  ghost predicate SavedOk(s: State) {
    s.disk.Some? ==> Recorded(s.history, s.disk.value.journal, s.disk.value.when, |s.history|)
  }

  /** What every step of the code keeps, whatever the environment does. */
  ghost predicate Base(s: State) {
    && s.eventCap > 0 && s.gapCap > 0 && s.maxPending > 0
    && DiskOk(s)
    && SavedOk(s)
    && (s.up ==> Recorded(s.history, s.journal, s.when, s.recorded) && Queues(s))
    && (s.drain.Some? ==> s.up)
    && (!s.up ==> s.native == [] && s.events == [])
  }

  /** While the record is complete every entry was recorded under its own name. */
  predicate Complete(s: State) {
    s.up && s.journal.gap.None? ==> s.journal.pending.Keys <= s.when.Keys
  }

  ghost predicate Bookkeeping(s: State) {
    Base(s) && Complete(s) && (s.up ==> NativeOk(s))
  }

  // ---------------------------------------------------------------- the index

  predicate GapCover(s: State) { s.journal.gap.Some? || Alarm(s) }

  ghost predicate IndexOk(s: State) {
    s.up ==> GapCover(s) || forall q :: Agree(s, s.index, 0, q)
  }

  predicate TimeIn(todo: seq<Item>, t: nat) {
    exists i :: 0 <= i < |todo| && todo[i].time == t
  }

  predicate NoDeletes(todo: seq<Item>, q: Path) {
    forall i :: 0 <= i < |todo| && todo[i].deleted ==> !Hits(todo[i], q)
  }

  ghost predicate JobAgree(s: State, job: Job, q: Path) {
    match job
    case Delta(work, todo) => Agree(s, work, 0, q) && (NoDeletes(todo, q) || LastAfter(s, 0, q))
    case Full(work, required, visited) => (q in required && q !in visited) || Agree(s, work, 0, q)
  }

  /** Publishing what a running job has built so far can never hide a change. */
  ghost predicate JobOk(s: State) {
    s.job.Some? && s.up ==> GapCover(s) || forall q :: JobAgree(s, s.job.value, q)
  }

  // ---------------------------------------------------------------- the drain

  predicate ItemMatches(item: Item, e: CJ.Event) {
    && item.path == e.path
    && item.deleted == (e.kind == CJ.Removed)
    && item.subtree == (item.deleted && e.directory)
    && (e.directory ==> item.deleted)
  }

  /** Operations stand for observations no newer than `bound`, oldest first. */
  ghost predicate TodoOk(h: seq<CJ.Event>, todo: seq<Item>, bound: nat) {
    && bound <= |h|
    && (forall i :: 0 <= i < |todo| ==> 0 < todo[i].time <= bound && ItemMatches(todo[i], h[todo[i].time - 1]))
    && (forall i, j :: 0 <= i < j < |todo| ==> todo[i].time < todo[j].time)
  }

  predicate Effective(entry: CJ.Entry) { entry.kind == CJ.Removed || !entry.directory }

  /** The gap or loss opened after the drain's mark. */
  predicate NewAlarm(s: State, d: Drain) { Alarm(s) || s.journal.gapSeq > d.mark.gapSeq }

  ghost predicate MarkOk(s: State, d: Drain) {
    && d.mark.sequence <= s.journal.sequence
    && d.mark.gapSeq <= s.journal.gapSeq
    && d.horizon <= s.recorded
    && (forall p :: p in s.when && p in s.journal.pending ==>
          (s.journal.pending[p].num > d.mark.sequence <==> s.when[p] > d.horizon))
    && (s.journal.gapSeq > d.mark.gapSeq ==> s.journal.gap.Some?)
    && (!d.reconcile && s.journal.gap.Some? ==> s.journal.gapSeq > d.mark.gapSeq)
    && (forall p :: p in s.journal.pending && s.journal.pending[p].num > d.mark.sequence ==> p in s.when)
    && (!d.reconcile ==> TodoOk(s.history, d.items, d.horizon))
    && (!d.reconcile ==> forall p :: p in s.when && p in s.journal.pending && s.when[p] <= d.horizon && Effective(s.journal.pending[p]) ==>
          TimeIn(d.items, s.when[p]))
  }

  ghost predicate PhaseOk(s: State, d: Drain) {
    match d.phase
    case Asked => true
    case Serving => s.job.Some? && (s.job.value.Delta? ==> TodoOk(s.history, s.job.value.todo, d.horizon))
    case Answered => s.job.None?
  }

  /** Once the drain is acknowledged, everything older than its horizon can be forgotten. */
  ghost predicate DrainAgree(s: State, d: Drain, q: Path) {
    RemovalOk(s, d.horizon, q) &&
    var last := LastTouch(s.history, q);
    match d.phase
    case Asked =>
      d.reconcile ||
      ((TimeIn(d.items, last) || LastAfter(s, d.horizon, q) || (At(s.index, q) == At(s.fs, q) && NoDeletes(d.items, q)))
       && (NoDeletes(d.items, q) || LastAfter(s, 0, q)))
    case Serving =>
      s.job.Some? &&
      (match s.job.value
       case Delta(work, todo) =>
         TimeIn(todo, last) || LastAfter(s, d.horizon, q) || (At(work, q) == At(s.fs, q) && NoDeletes(todo, q))
       case Full(work, required, visited) =>
         (q in required && q !in visited) || LastAfter(s, d.horizon, q) || At(work, q) == At(s.fs, q))
    case Answered => LastAfter(s, d.horizon, q) || At(s.index, q) == At(s.fs, q)
  }

  ghost predicate DrainOk(s: State) {
    s.drain.Some? ==>
      var d := s.drain.value;
      MarkOk(s, d) && PhaseOk(s, d) && (NewAlarm(s, d) || forall q :: DrainAgree(s, d, q))
  }

  ghost predicate Inv(s: State) {
    Bookkeeping(s) && IndexOk(s) && JobOk(s) && DrainOk(s)
  }

  // ---------------------------------------------------------------- the log

  lemma LastTouchAppend(h: seq<CJ.Event>, e: CJ.Event, q: Path)
    ensures LastTouch(h + [e], q) == if Touches(e, q) then |h| + 1 else LastTouch(h, q)
  {
    assert (h + [e])[..|h|] == h;
  }

  lemma {:induction false} LastTouchIsLast(h: seq<CJ.Event>, t: nat, q: Path)
    requires 0 < t <= |h| && Touches(h[t - 1], q)
    ensures t <= LastTouch(h, q)
  {
    if t < |h| && !Touches(h[|h| - 1], q) {
      LastTouchIsLast(h[..|h| - 1], t, q);
    }
  }

  // ---------------------------------------------------------------- steps that only move notifications

  /** `q` was touched by something new that is live, or nothing about it changed. */
  ghost predicate Carries(s: State, s': State, q: Path) {
    var last, last' := LastTouch(s.history, q), LastTouch(s'.history, q);
    || (last' > |s.history| && IsLive(s', last'))
    || (&& last' == last
        && At(s'.fs, q) == At(s.fs, q)
        && (IsLive(s, last) ==> IsLive(s', last))
        && (forall t: nat :: IsLive(s', t) && Removes(s'.history, t, q) ==> IsLive(s, t) && Removes(s.history, t, q)))
  }

  /** A step of the user, the watcher or the event loop: index, drain and job stand still. */
  ghost predicate Flow(s: State, s': State) {
    && s.up && s'.up
    && s'.index == s.index && s'.job == s.job && s'.drain == s.drain
    && s.history <= s'.history
    && s.recorded <= s'.recorded
    && s.journal.sequence <= s'.journal.sequence
    && s.journal.gapSeq <= s'.journal.gapSeq
    && (s.journal.gap.Some? ==> s'.journal.gap.Some?)
    && (s'.journal.gap.Some? ==> s.journal.gap.Some? || s'.journal.gapSeq > s.journal.gapSeq)
    && (s'.journal.gapSeq > s.journal.gapSeq ==> s'.journal.gap.Some?)
    && (Alarm(s) ==> Alarm(s') || s'.journal.gapSeq > s.journal.gapSeq)
    && (Alarm(s') || s'.journal.gapSeq > s.journal.gapSeq || forall q :: Carries(s, s', q))
    && (forall p :: p in s'.when && p in s'.journal.pending ==>
          || (p in s.when && p in s.journal.pending && s'.when[p] == s.when[p] && s'.journal.pending[p] == s.journal.pending[p])
          || (s'.when[p] > s.recorded && s'.journal.pending[p].num > s.journal.sequence))
    && (forall p :: p in s'.journal.pending && p !in s'.when ==>
          p in s.journal.pending && p !in s.when && s'.journal.pending[p] == s.journal.pending[p])
  }

  lemma CarriesAgree(s: State, s': State, store: map<Path, Content>, after: nat, q: Path)
    requires Carries(s, s', q) && after <= |s.history| && Agree(s, store, after, q)
    ensures Agree(s', store, after, q)
  {
  }

  lemma CarriesRemovalOk(s: State, s': State, after: nat, q: Path)
    requires Carries(s, s', q) && after <= |s.history| && RemovalOk(s, after, q)
    ensures RemovalOk(s', after, q)
  {
  }

  lemma FlowIndexOk(s: State, s': State)
    requires Flow(s, s') && IndexOk(s)
    ensures IndexOk(s')
  {
    if !GapCover(s') {
      forall q ensures Agree(s', s'.index, 0, q) {
        CarriesAgree(s, s', s.index, 0, q);
      }
    }
  }

  lemma FlowJobOk(s: State, s': State)
    requires Flow(s, s') && JobOk(s)
    ensures JobOk(s')
  {
    if s'.job.Some? && !GapCover(s') {
      forall q ensures JobAgree(s', s'.job.value, q) {
        assert JobAgree(s, s.job.value, q) && Carries(s, s', q);
        if Agree(s, s.job.value.work, 0, q) {
          CarriesAgree(s, s', s.job.value.work, 0, q);
        }
      }
    }
  }

  lemma FlowDrainAgree(s: State, s': State, d: Drain, q: Path)
    requires s'.index == s.index && s'.job == s.job && Carries(s, s', q) && d.horizon <= |s.history|
    requires DrainAgree(s, d, q)
    ensures DrainAgree(s', d, q)
  {
    CarriesRemovalOk(s, s', d.horizon, q);
    assert LastAfter(s, d.horizon, q) ==> LastAfter(s', d.horizon, q);
    assert LastAfter(s, 0, q) ==> LastAfter(s', 0, q);
  }

  lemma FlowDrainOk(s: State, s': State)
    requires Flow(s, s') && DrainOk(s) && s.recorded <= |s.history|
    ensures DrainOk(s')
  {
    if s.drain.Some? {
      var d := s.drain.value;
      assert MarkOk(s', d);
      assert PhaseOk(s', d);
      if !NewAlarm(s', d) {
        forall q ensures DrainAgree(s', d, q) {
          FlowDrainAgree(s, s', d, q);
        }
      }
    }
  }

  /** Moving notifications keeps what the index, a running job and a drain promise. */
  lemma FlowKeeps(s: State, s': State)
    requires Inv(s) && Flow(s, s') && Bookkeeping(s')
    ensures Inv(s')
  {
    FlowIndexOk(s, s');
    FlowJobOk(s, s');
    FlowDrainOk(s, s');
  }
}
