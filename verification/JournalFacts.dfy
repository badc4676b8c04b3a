/** The rest of what a journal records, over every run: gaps, instants, generations, checkpoints, and whose it is. */
module JournalFacts {
  // internal/changejournal/journal.go:158-351. Each fact is stated of the operations of a run,
  // not of how one operation computes its new state.

  import opened Text
  import opened ChangeJournal
  import opened JournalRuns

  // ---------------------------------------------------------------- opening

  function Fresh(projectID: string, reason: string, now: nat): State {
    State(projectID, 0, 0, 0, 1, Some(Gap(reason, now)), map[], 0)
  }

  /** A missing document, one that cannot be read, another schema's and another project's all start from nothing, and say why. */
  lemma OpenRejects(projectID: string, document: Document, now: nat)
    ensures document.Absent? ==> Open(projectID, document, now) == Fresh(projectID, "observation_started", now)
    ensures document.Unreadable? ==> Open(projectID, document, now) == Fresh(projectID, "journal_unreadable", now)
    ensures document.Stored? && (document.schemaVersion != 1 || document.meta.projectID != projectID) ==>
              Open(projectID, document, now) == Fresh(projectID, "journal_unreadable", now)
  {
  }

  /** The last entry of a list with a given path, or -1. */
  function LastFor(entries: seq<Entry>, path: string): (i: int)
    ensures -1 <= i < |entries|
    ensures i >= 0 ==> entries[i].path == path
    ensures forall j :: i < j < |entries| ==> entries[j].path != path
  {
    if entries == [] then -1
    else if entries[|entries| - 1].path == path then |entries| - 1
    else LastFor(entries[..|entries| - 1], path)
  }

  lemma {:induction false} KeyedIsLast(entries: seq<Entry>, path: string)
    ensures path in Keyed(entries) <==> LastFor(entries, path) >= 0
    ensures path in Keyed(entries) ==> Keyed(entries)[path] == entries[LastFor(entries, path)]
  {
    if entries != [] { KeyedIsLast(entries[..|entries| - 1], path); }
  }

  /** The project's own document is taken over whole, with one more gap: the one it had, or the start's. */
  lemma OpenAccepts(projectID: string, document: Document, now: nat, path: string)
    requires document.Stored? && document.schemaVersion == 1 && document.meta.projectID == projectID
    ensures var j, m := Open(projectID, document, now), document.meta;
            && j.projectID == projectID && j.sequence == m.sequence && j.checkpoint == m.checkpoint
            && j.generation == m.generation && j.lastEventAt == m.lastEventAt && j.gapSeq == m.gapSeq + 1
            && j.gap == (if m.gap.Some? then m.gap else Some(Gap("observation_started", now)))
            && (path in j.pending <==> LastFor(document.entries, path) >= 0)
            && (path in j.pending ==> j.pending[path] == document.entries[LastFor(document.entries, path)])
  {
    KeyedIsLast(document.entries, path);
  }

  // ---------------------------------------------------------------- the gap

  /** The gap an operation opens in a complete record: its reason and its instant. */
  function Opens(w: World, op: Op): Option<Gap> {
    match op
    case Break(reason, at, now) => Some(Gap(reason, if at == 0 then now else at))
    case Observe(events, now) => if Breaks(w, op) then Some(Gap("bulk_change", now)) else None
    case Restart(now) =>
      if w.saved.Some? && w.saved.value.0.gap.Some? then w.saved.value.0.gap else Some(Gap("observation_started", now))
    case _ => None
  }

  /** A gap says why and when the record was first broken, and stays so until it is reconciled or the process restarts. */
  lemma GapTellsTheFirstBreak(w: World, op: Op, later: seq<Op>)
    requires w.journal.gap.None? && Enabled(w, op) && AllEnabled(Next(w, op), later) && NoRestart(later)
    requires forall i :: 0 <= i < |later| ==> !later[i].Reconcile?
    ensures Next(w, op).journal.gap == Opens(w, op)
    ensures Opens(w, op).Some? ==> NextAll(Next(w, op), later).journal.gap == Opens(w, op)
  {
    if op.Observe? { RecordEachKeepsGap(w.journal, op.events); }
    if Opens(w, op).Some? { FirstReasonIsKept(Next(w, op), later); }
  }

  // ---------------------------------------------------------------- the last event

  /** The latest instant of a log, 0 for an empty one. */
  ghost predicate Latest(at: nat, log: seq<Event>) {
    && (forall i :: 0 <= i < |log| ==> log[i].at <= at)
    && (at == 0 || exists i :: 0 <= i < |log| && log[i].at == at)
  }

  lemma LatestAppend(at: nat, log: seq<Event>, e: Event)
    requires Latest(at, log)
    ensures Latest(if e.at > at then e.at else at, log + [e])
  {
    var all := log + [e];
    assert all[|log|] == e;
    if at != 0 {
      var i :| 0 <= i < |log| && log[i].at == at;
      assert all[i] == log[i];
    }
  }

  lemma {:induction false} RecordEachLatest(j: State, log: seq<Event>, events: seq<Event>)
    requires Latest(j.lastEventAt, log)
    ensures Latest(RecordEach(j, events).lastEventAt, log + Kept(events))
  {
    if events == [] {
      assert log + [] == log;
    } else {
      var n := |events| - 1;
      var e := events[n];
      RecordEachLatest(j, log, events[..n]);
      LatestAppend(RecordEach(j, events[..n]).lastEventAt, log + Kept(events[..n]), Observed(e));
      assert log + (Kept(events[..n]) + [Observed(e)]) == log + Kept(events[..n]) + [Observed(e)];
      assert log + (Kept(events[..n]) + []) == log + Kept(events[..n]);
    }
  }

  ghost predicate LatestInv(w: World) {
    Latest(w.journal.lastEventAt, w.log) && (w.saved.Some? ==> Latest(w.saved.value.0.lastEventAt, w.saved.value.1))
  }

  /** In every run the journal's last event is the latest of everything it observed, in whatever order that came. */
  lemma {:induction false} LastEventIsLatest(id: string, max: nat, now: nat, ops: seq<Op>)
    requires AllEnabled(Start(id, max, now), ops)
    ensures LatestInv(NextAll(Start(id, max, now), ops))
  {
    if ops != [] {
      var rest, op := ops[..|ops| - 1], ops[|ops| - 1];
      LastEventIsLatest(id, max, now, rest);
      var w := NextAll(Start(id, max, now), rest);
      if op.Observe? { RecordEachLatest(w.journal, w.log, op.events); }
    }
  }

  // ---------------------------------------------------------------- what was consumed

  /** How far a consumer is: the generation it last reported and the greatest mark it acted on. */
  datatype Progress = Progress(generation: nat, checkpoint: nat)

  /** The progress a run's commits and reconciliations make; a restart goes back to what was saved. */
  function Made(ops: seq<Op>): (Progress, Progress) {
    if ops == [] then (Progress(0, 0), Progress(0, 0))
    else
      var (now, saved) := Made(ops[..|ops| - 1]);
      match ops[|ops| - 1]
      case Commit(mark, g) => (Progress(g, if mark.sequence > now.checkpoint then mark.sequence else now.checkpoint), saved)
      case Reconcile(mark, g) => (Progress(g, if mark.sequence > now.checkpoint then mark.sequence else now.checkpoint), saved)
      case Save => (now, now)
      case Restart(_) => (saved, saved)
      case _ => (now, saved)
  }

  lemma {:induction false} RecordEachKeepsProgress(j: State, events: seq<Event>)
    ensures var r := RecordEach(j, events);
            r.generation == j.generation && r.checkpoint == j.checkpoint && r.projectID == j.projectID
  {
    if events != [] { RecordEachKeepsProgress(j, events[..|events| - 1]); }
  }

  predicate Shows(j: State, p: Progress, id: string) {
    j.generation == p.generation && j.checkpoint == p.checkpoint && j.projectID == id
  }

  /**
   In every run the journal holds the generation of the last commit or reconciliation and the
   greatest of their marks, counted from the last save after a restart; and it stays the
   project's own.
   */
  lemma {:induction false} ProgressIsKept(id: string, max: nat, now: nat, ops: seq<Op>)
    requires AllEnabled(Start(id, max, now), ops)
    ensures var w := NextAll(Start(id, max, now), ops);
            && Shows(w.journal, Made(ops).0, id)
            && (if w.saved.Some? then Shows(w.saved.value.0, Made(ops).1, id) else Made(ops).1 == Progress(0, 0))
  {
    if ops != [] {
      var rest, op := ops[..|ops| - 1], ops[|ops| - 1];
      ProgressIsKept(id, max, now, rest);
      var w := NextAll(Start(id, max, now), rest);
      if op.Observe? { RecordEachKeepsProgress(w.journal, op.events); }
    }
  }
}
