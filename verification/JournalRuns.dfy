/** Every run of the journal against a full observation log. */
module JournalRuns {
  // A run interleaves observations, gaps, marks, commits, reconciliations, saves and
  // restarts in any order; a commit or reconciliation may use any mark taken since the
  // last restart, so nothing here relies on consumers being serialized.

  import opened Text
  import opened ChangeJournal

  datatype Op =
    | Observe(events: seq<Event>, now: nat)
    | Break(reason: string, at: nat, now: nat)
    | TakeMark
    | Commit(mark: Mark, generation: nat)
    | Reconcile(mark: Mark, generation: nat)
    | Save
    | Restart(now: nat)

  /**
   `log` holds every accepted observation in order, so the i-th one carries sequence
   number i + 1. `lost` is how much of the log a bulk overflow threw away. `saved` is the
   journal last written together with the log and loss it was written under.
   */
  datatype World = World(
    journal: State,
    log: seq<Event>,
    lost: nat,
    marks: set<Mark>,
    saved: Option<(State, seq<Event>, nat)>,
    maxPending: nat)

  function Kept(events: seq<Event>): seq<Event> {
    if events == [] then []
    else
      Kept(events[..|events| - 1]) +
      (if Accepted(events[|events| - 1]) then [Observed(events[|events| - 1])] else [])
  }

  /** The number of the last observation of a path, 0 when there is none. */
  function LastSeen(log: seq<Event>, path: string): (n: nat)
    ensures n <= |log|
    ensures n > 0 ==> log[n - 1].path == path
  {
    if log == [] then 0
    else if log[|log| - 1].path == path then |log|
    else LastSeen(log[..|log| - 1], path)
  }

  predicate Enabled(w: World, op: Op) {
    (op.Commit? || op.Reconcile?) ==> op.mark in w.marks
  }

  function Next(w: World, op: Op): World
    requires Enabled(w, op)
  {
    match op
    case Observe(events, now) =>
      var log := w.log + Kept(events);
      var each := RecordEach(w.journal, events);
      w.(journal := Record(w.journal, events, w.maxPending, now), log := log,
         lost := if events != [] && |each.pending| > w.maxPending then |log| else w.lost)
    case Break(reason, at, now) => w.(journal := MarkGap(w.journal, reason, at, now))
    case TakeMark => w.(marks := w.marks + {w.journal.TakeMark()})
    case Commit(mark, generation) => w.(journal := Advance(w.journal, mark.sequence, generation))
    case Reconcile(mark, generation) => w.(journal := Reconciled(w.journal, mark, generation))
    case Save => w.(saved := Some((w.journal, w.log, w.lost)))
    case Restart(now) =>
      match w.saved
      case None =>
        w.(journal := Open(w.journal.projectID, Absent, now), log := [], lost := 0, marks := {})
      case Some((j, log, lost)) =>
        w.(journal := MarkGap(j, REASON_STARTED, now, now), log := log, lost := lost, marks := {})
  }

  function Start(projectID: string, maxPending: nat, now: nat): World {
    World(Open(projectID, Absent, now), [], 0, {}, None, maxPending)
  }

  /** Whether every step of `ops` is enabled when taken from `w` in turn. */
  predicate AllEnabled(w: World, ops: seq<Op>)
    decreases |ops|, 0
  {
    ops == [] ||
    (AllEnabled(w, ops[..|ops| - 1]) && Enabled(NextAll(w, ops[..|ops| - 1]), ops[|ops| - 1]))
  }

  function NextAll(w: World, ops: seq<Op>): World
    requires AllEnabled(w, ops)
    decreases |ops|, 1
  {
    if ops == [] then w else Next(NextAll(w, ops[..|ops| - 1]), ops[|ops| - 1])
  }

  // ---------------------------------------------------------------- the invariant

  /** Each pending entry is the last observation of its path, newer than the checkpoint. */
  ghost predicate Sound(j: State, log: seq<Event>) {
    && j.sequence == |log|
    && j.checkpoint <= j.sequence
    && forall p :: p in j.pending ==> EntryIsLast(log, p, j.pending[p], j.checkpoint)
  }

  predicate EntryIsLast(log: seq<Event>, p: string, e: Entry, checkpoint: nat) {
    && e.num == LastSeen(log, p)
    && e.num > checkpoint
    && e == EntryFor(e.num, log[e.num - 1])
  }

  /** Nothing observed after the checkpoint and after the last bulk loss is missing. */
  ghost predicate Complete(j: State, log: seq<Event>, lost: nat) {
    && lost <= |log|
    && forall p :: LastSeen(log, p) > j.checkpoint && LastSeen(log, p) > lost ==> p in j.pending
  }

  ghost predicate Accurate(j: State, log: seq<Event>, lost: nat) {
    && Sound(j, log)
    && Complete(j, log, lost)
    && (lost > j.checkpoint ==> j.gap.Some?)
  }

  /** A mark whose gap count is still current was taken after the last bulk loss. */
  ghost predicate MarkOk(m: Mark, w: World) {
    && m.sequence <= w.journal.sequence
    && m.gapSeq <= w.journal.gapSeq
    && (m.gapSeq == w.journal.gapSeq ==> w.lost <= m.sequence)
  }

  ghost predicate Inv(w: World) {
    && Accurate(w.journal, w.log, w.lost)
    && (forall m :: m in w.marks ==> MarkOk(m, w))
    && (w.saved.Some? ==> Accurate(w.saved.value.0, w.saved.value.1, w.saved.value.2))
  }

  lemma LastSeenAppend(log: seq<Event>, e: Event, p: string)
    ensures LastSeen(log + [e], p) == if p == e.path then |log| + 1 else LastSeen(log, p)
  {
    assert (log + [e])[..|log|] == log;
  }

  lemma PutTracks(j: State, log: seq<Event>, lost: nat, e: Event)
    requires Sound(j, log) && Complete(j, log, lost)
    ensures Sound(Put(j, e), log + [e]) && Complete(Put(j, e), log + [e], lost)
  {
    var j', log' := Put(j, e), log + [e];
    forall p | p in j'.pending ensures EntryIsLast(log', p, j'.pending[p], j'.checkpoint) {
      LastSeenAppend(log, e, p);
    }
    forall p | LastSeen(log', p) > j'.checkpoint && LastSeen(log', p) > lost ensures p in j'.pending {
      LastSeenAppend(log, e, p);
    }
  }

  lemma {:induction false} RecordEachTracks(j: State, log: seq<Event>, lost: nat, events: seq<Event>)
    requires Sound(j, log) && Complete(j, log, lost)
    ensures var r := RecordEach(j, events);
            Sound(r, log + Kept(events)) && Complete(r, log + Kept(events), lost) &&
            r == j.(sequence := r.sequence, pending := r.pending, lastEventAt := r.lastEventAt)
  {
    if events == [] {
      assert log + Kept(events) == log;
    } else {
      var n := |events| - 1;
      RecordEachTracks(j, log, lost, events[..n]);
      var log' := log + Kept(events[..n]);
      if Accepted(events[n]) {
        assert log + Kept(events) == log' + [Observed(events[n])];
        PutTracks(RecordEach(j, events[..n]), log', lost, Observed(events[n]));
      } else {
        assert log + Kept(events) == log';
      }
    }
  }

  lemma AdvanceTracks(j: State, log: seq<Event>, lost: nat, through: nat, generation: nat)
    requires Accurate(j, log, lost) && through <= j.sequence
    ensures Accurate(Advance(j, through, generation), log, lost)
  {
    var r := Advance(j, through, generation);
    forall p | p in r.pending ensures EntryIsLast(log, p, r.pending[p], r.checkpoint) {
      assert EntryIsLast(log, p, j.pending[p], j.checkpoint);
    }
  }

  lemma ReconciledTracks(j: State, log: seq<Event>, lost: nat, m: Mark, generation: nat)
    requires Accurate(j, log, lost) && m.sequence <= j.sequence
    requires m.gapSeq == j.gapSeq ==> lost <= m.sequence
    ensures Accurate(Reconciled(j, m, generation), log, lost)
  {
    AdvanceTracks(j, log, lost, m.sequence, generation);
  }

  lemma ObserveTracks(w: World, events: seq<Event>, now: nat)
    requires Inv(w)
    ensures Inv(Next(w, Observe(events, now)))
  {
    RecordEachTracks(w.journal, w.log, w.lost, events);
    var w' := Next(w, Observe(events, now));
    var each := RecordEach(w.journal, events);
    if events == [] {
      assert w.log + Kept(events) == w.log;
    } else if |each.pending| > w.maxPending {
      assert Complete(w'.journal, w'.log, w'.lost);
    }
  }

  lemma NextKeepsInv(w: World, op: Op)
    requires Inv(w) && Enabled(w, op)
    ensures Inv(Next(w, op))
  {
    var w' := Next(w, op);
    match op
    case Observe(events, now) =>
      ObserveTracks(w, events, now);
    case Commit(m, generation) =>
      AdvanceTracks(w.journal, w.log, w.lost, m.sequence, generation);
    case Reconcile(m, generation) =>
      ReconciledTracks(w.journal, w.log, w.lost, m, generation);
    case Restart(now) =>
      if w.saved.None? {
        assert Complete(Open(w.journal.projectID, Absent, now), [], 0);
      }
    case Break(reason, at, now) =>
      assert Accurate(w'.journal, w'.log, w'.lost);
    case _ =>
  }

  lemma StartInv(id: string, max: nat, now: nat)
    ensures Inv(Start(id, max, now))
  {
  }

  lemma {:induction false} RunsKeepInv(w: World, ops: seq<Op>)
    requires Inv(w) && AllEnabled(w, ops)
    ensures Inv(NextAll(w, ops))
  {
    if ops != [] {
      RunsKeepInv(w, ops[..|ops| - 1]);
      NextKeepsInv(NextAll(w, ops[..|ops| - 1]), ops[|ops| - 1]);
    }
  }

  /** The states some run from an absent document reaches. */
  ghost predicate Reachable(w: World) {
    exists id, max, now, ops :: AllEnabled(Start(id, max, now), ops) && w == NextAll(Start(id, max, now), ops)
  }

  lemma ReachableInv(w: World)
    requires Reachable(w)
    ensures Inv(w)
  {
    var id, max, now, ops :| AllEnabled(Start(id, max, now), ops) && w == NextAll(Start(id, max, now), ops);
    RunsKeepInv(Start(id, max, now), ops);
  }

  // ---------------------------------------------------------------- what a run guarantees

  lemma NoGapExact(j: State, log: seq<Event>, lost: nat)
    requires Accurate(j, log, lost) && j.gap.None?
    ensures forall p :: p in j.pending <==> LastSeen(log, p) > j.checkpoint
    ensures j.pending == map[] <==> j.checkpoint == j.sequence
  {
    forall p ensures p in j.pending <==> LastSeen(log, p) > j.checkpoint {
      assert p in j.pending ==> EntryIsLast(log, p, j.pending[p], j.checkpoint);
    }
    if j.checkpoint < j.sequence {
      var p := log[|log| - 1].path;
      assert LastSeen(log, p) == |log|;
      assert p in j.pending;
    }
  }

  lemma PendingIsLast(j: State, log: seq<Event>, lost: nat, p: string)
    requires Accurate(j, log, lost) && j.gap.None? && p in j.pending
    ensures var n := LastSeen(log, p); n > 0 && Repeats(j.pending[p], n, log[n - 1])
  {
    assert EntryIsLast(log, p, j.pending[p], j.checkpoint);
  }

  lemma PendingIsKeyed(j: State, log: seq<Event>)
    requires Sound(j, log)
    ensures Distinct(j.pending) && SelfKeyed(j.pending)
  {
    forall p | p in j.pending ensures j.pending[p].num == LastSeen(log, p) > 0 && j.pending[p].path == p {
      assert EntryIsLast(log, p, j.pending[p], j.checkpoint);
    }
  }

  /** The entry says what the n-th observation said: which path, what happened, to a directory or not, and when. */
  predicate Repeats(entry: Entry, n: nat, e: Event) {
    entry.num == n && entry.path == e.path && entry.kind == e.kind && entry.directory == e.directory && entry.at == e.at
  }

  ghost predicate AllRepeat(pending: map<string, Entry>, log: seq<Event>) {
    forall p :: p in pending ==> LastSeen(log, p) > 0 && Repeats(pending[p], LastSeen(log, p), log[LastSeen(log, p) - 1])
  }

  lemma PendingRepeats(j: State, log: seq<Event>, lost: nat)
    requires Accurate(j, log, lost) && j.gap.None?
    ensures AllRepeat(j.pending, log)
  {
    forall p | p in j.pending
      ensures LastSeen(log, p) > 0 && Repeats(j.pending[p], LastSeen(log, p), log[LastSeen(log, p) - 1])
    {
      PendingIsLast(j, log, lost, p);
    }
  }

  /**
   In every reachable state with no gap, the pending map is exactly the last observation
   of each path that is newer than the checkpoint, and it is empty exactly when the
   consumer has caught up.
   */
  lemma PendingRefinesLog(w: World)
    requires Reachable(w) && w.journal.gap.None?
    ensures forall p :: p in w.journal.pending <==> LastSeen(w.log, p) > w.journal.checkpoint
    ensures AllRepeat(w.journal.pending, w.log)
    ensures w.journal.pending == map[] <==> w.journal.checkpoint == w.journal.sequence
    ensures Distinct(w.journal.pending) && SelfKeyed(w.journal.pending)
  {
    ReachableInv(w);
    NoGapExact(w.journal, w.log, w.lost);
    PendingIsKeyed(w.journal, w.log);
    PendingRepeats(w.journal, w.log, w.lost);
  }

  /** Gap or no gap, what is pending is never stale and never already committed. */
  lemma PendingIsAlwaysSound(w: World)
    requires Reachable(w)
    ensures Sound(w.journal, w.log) && Distinct(w.journal.pending) && SelfKeyed(w.journal.pending)
  {
    ReachableInv(w);
  }

  predicate NoRestart(ops: seq<Op>) {
    forall i :: 0 <= i < |ops| ==> !ops[i].Restart?
  }

  /** Whether an operation breaks the record: an explicit gap, or a batch past the bound. */
  predicate Breaks(w: World, op: Op) {
    || op.Break?
    || (op.Observe? && op.events != [] && |RecordEach(w.journal, op.events).pending| > w.maxPending)
  }

  function BreakCount(w: World, ops: seq<Op>): (n: nat)
    requires AllEnabled(w, ops)
    decreases |ops|
  {
    if ops == [] then 0
    else
      var rest := ops[..|ops| - 1];
      BreakCount(w, rest) + if Breaks(NextAll(w, rest), ops[|ops| - 1]) then 1 else 0
  }

  /** Between restarts the gap counter counts the breaks, one each, and nothing else. */
  lemma {:induction false} GapSeqCountsBreaks(w: World, ops: seq<Op>)
    requires Inv(w) && AllEnabled(w, ops) && NoRestart(ops)
    ensures Inv(NextAll(w, ops))
    ensures NextAll(w, ops).journal.gapSeq == w.journal.gapSeq + BreakCount(w, ops)
    ensures w.log <= NextAll(w, ops).log
  {
    if ops != [] {
      var rest, op := ops[..|ops| - 1], ops[|ops| - 1];
      GapSeqCountsBreaks(w, rest);
      var v := NextAll(w, rest);
      NextKeepsInv(v, op);
      if op.Observe? {
        RecordEachTracks(v.journal, v.log, v.lost, op.events);
      }
    }
  }

  /**
   A reconciliation leaves no gap exactly when nothing broke the record between its mark
   and its completion, or another reconciliation had closed the gap already. A gap that
   stays is the gap that was there.
   */
  lemma ReconcileClosesOnlyItsGap(w: World, later: seq<Op>, generation: nat)
    requires Reachable(w) && AllEnabled(w, later) && NoRestart(later)
    ensures var v := NextAll(w, later);
            var r := Reconciled(v.journal, w.journal.TakeMark(), generation);
            && (r.gap.None? <==> BreakCount(w, later) == 0 || v.journal.gap.None?)
            && (r.gap.Some? ==> r.gap == v.journal.gap)
  {
    ReachableInv(w);
    GapSeqCountsBreaks(w, later);
  }

  /**
   After a reconciliation every path observed later than its mark is still pending at its
   latest observation, unless a newer commit applied it or a gap stays set; and nothing
   older than the mark is left.
   */
  lemma ReconcileKeepsLaterObservations(w: World, later: seq<Op>, generation: nat, p: string)
    requires Reachable(w) && AllEnabled(w, later) && NoRestart(later)
    ensures var v, m := NextAll(w, later), w.journal.TakeMark();
            var r, n := Reconciled(v.journal, m, generation), LastSeen(v.log, p);
            && (p in r.pending ==> r.pending[p].num == n > m.sequence)
            && (r.gap.None? && n > m.sequence && n > v.journal.checkpoint ==> p in r.pending)
  {
    ReachableInv(w);
    GapSeqCountsBreaks(w, later);
    var v, m := NextAll(w, later), w.journal.TakeMark();
    assert MarkOk(m, v) by { MarkSurvives(w, later); }
    ReconciledKeepsNewer(v.journal, v.log, v.lost, m, generation);
    if p in v.journal.pending {
      assert EntryIsLast(v.log, p, v.journal.pending[p], v.journal.checkpoint);
    }
  }

  lemma {:induction false} MarkSurvives(w: World, ops: seq<Op>)
    requires Inv(w) && AllEnabled(w, ops) && NoRestart(ops)
    ensures MarkOk(w.journal.TakeMark(), NextAll(w, ops))
  {
    var m := w.journal.TakeMark();
    if ops == [] {
      assert w.lost <= |w.log|;
    } else {
      var rest := ops[..|ops| - 1];
      MarkSurvives(w, rest);
      RunsKeepInv(w, rest);
      var v := NextAll(w, rest);
      MarkOkStep(m, v, ops[|ops| - 1]);
    }
  }

  lemma MarkOkStep(m: Mark, w: World, op: Op)
    requires Inv(w) && Enabled(w, op) && !op.Restart? && MarkOk(m, w)
    ensures MarkOk(m, Next(w, op))
  {
    if op.Observe? {
      RecordEachTracks(w.journal, w.log, w.lost, op.events);
    }
  }

  lemma ReconciledKeepsNewer(j: State, log: seq<Event>, lost: nat, m: Mark, generation: nat)
    requires Accurate(j, log, lost)
    ensures var r := Reconciled(j, m, generation);
            && (forall p :: p in r.pending ==> r.pending[p].num > m.sequence)
            && (forall p :: LastSeen(log, p) > m.sequence && LastSeen(log, p) > j.checkpoint && LastSeen(log, p) > lost ==>
                  p in r.pending && r.pending[p].num == LastSeen(log, p))
  {
    var r := Reconciled(j, m, generation);
    forall p | LastSeen(log, p) > m.sequence && LastSeen(log, p) > j.checkpoint && LastSeen(log, p) > lost
      ensures p in r.pending && r.pending[p].num == LastSeen(log, p)
    {
      assert EntryIsLast(log, p, j.pending[p], j.checkpoint);
    }
  }

  /** The first reason is kept: no sequence of further breaks and observations changes it. */
  lemma {:induction false} FirstReasonIsKept(w: World, ops: seq<Op>)
    requires AllEnabled(w, ops) && NoRestart(ops) && w.journal.gap.Some?
    requires forall i :: 0 <= i < |ops| ==> !ops[i].Reconcile?
    ensures NextAll(w, ops).journal.gap == w.journal.gap
  {
    if ops != [] {
      var rest := ops[..|ops| - 1];
      FirstReasonIsKept(w, rest);
      if ops[|ops| - 1].Observe? {
        RecordEachKeepsGap(NextAll(w, rest).journal, ops[|ops| - 1].events);
      }
    }
  }

  lemma {:induction false} RecordEachKeepsGap(j: State, events: seq<Event>)
    ensures RecordEach(j, events).gap == j.gap
  {
    if events != [] {
      RecordEachKeepsGap(j, events[..|events| - 1]);
    }
  }
}
