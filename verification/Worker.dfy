/**
 The two ends of a drain (internal/watchsupervisor/worker.go:252-334), which the protocol and
 lifecycle models interleave with everything else, and the translation between them.
 */
module Worker {
  import opened Text
  import CJ = ChangeJournal
  import opened Protocol
  import RecordCover

  datatype IndexChange = IndexChange(path: Path, deleted: bool, subtree: bool)

  /** The operation an entry asks for: a created directory asks for none. */
  function ChangeFor(e: CJ.Entry): seq<IndexChange> {
    if e.kind == CJ.Removed then [IndexChange(e.path, true, e.directory)]
    else if e.directory then []
    else [IndexChange(e.path, false, false)]
  }

  function IndexChanges(entries: seq<CJ.Entry>): seq<IndexChange> {
    if entries == [] then []
    else IndexChanges(entries[..|entries| - 1]) + ChangeFor(entries[|entries| - 1])
  }

  /** The operations reach exactly the paths that some entry can settle. */
  ghost predicate ReachesWhatSettles(changes: seq<IndexChange>, entries: seq<CJ.Entry>) {
    forall q :: Reached(changes, q) <==> exists i :: 0 <= i < |entries| && RecordCover.Settles(entries[i], q)
  }

  method BuildIndexChanges(entries: seq<CJ.Entry>) returns (changes: seq<IndexChange>)
    ensures changes == IndexChanges(entries)
    ensures ReachesWhatSettles(changes, entries)
  {
    changes := [];
    for i := 0 to |entries|
      invariant changes == IndexChanges(entries[..i])
    {
      assert entries[..i + 1][..i] == entries[..i];
      var entry := entries[i];
      if entry.kind == CJ.Removed {
        changes := changes + [IndexChange(entry.path, true, entry.directory)];
      } else if entry.directory {
      } else {
        changes := changes + [IndexChange(entry.path, false, false)];
      }
    }
    assert entries[..|entries|] == entries;
    forall q ensures Reached(changes, q) <==> exists i :: 0 <= i < |entries| && RecordCover.Settles(entries[i], q) {
      ChangesReachWhatEntriesSettle(entries, q);
    }
  }

  predicate Reached(changes: seq<IndexChange>, q: Path) {
    exists i :: 0 <= i < |changes| && (changes[i].path == q || (changes[i].subtree && Under(changes[i].path, q)))
  }

  lemma ReachedConcat(a: seq<IndexChange>, b: seq<IndexChange>, q: Path)
    ensures Reached(a + b, q) <==> Reached(a, q) || Reached(b, q)
  {
    if Reached(a, q) {
      var i :| 0 <= i < |a| && (a[i].path == q || (a[i].subtree && Under(a[i].path, q)));
      assert (a + b)[i] == a[i];
    }
    if Reached(b, q) {
      var i :| 0 <= i < |b| && (b[i].path == q || (b[i].subtree && Under(b[i].path, q)));
      assert (a + b)[|a| + i] == b[i];
    }
  }

  /** A path is reached by the operations exactly when some pending entry can settle it. */
  lemma {:induction false} ChangesReachWhatEntriesSettle(entries: seq<CJ.Entry>, q: Path)
    ensures Reached(IndexChanges(entries), q) <==> exists i :: 0 <= i < |entries| && RecordCover.Settles(entries[i], q)
  {
    if entries != [] {
      var n := |entries| - 1;
      var e := entries[n];
      ChangesReachWhatEntriesSettle(entries[..n], q);
      ReachedConcat(IndexChanges(entries[..n]), ChangeFor(e), q);
      assert Reached(ChangeFor(e), q) <==> RecordCover.Settles(e, q) by {
        if ChangeFor(e) != [] {
          assert ChangeFor(e)[0].path == e.path;
        }
      }
      assert forall i :: 0 <= i < n ==> entries[..n][i] == entries[i];
    }
  }

  /** The operations the protocol model applies are these, each tagged with its time. */
  lemma {:induction false} ItemsAreIndexChanges(entries: seq<CJ.Entry>, when: map<Path, nat>)
    ensures |Items(entries, when)| == |IndexChanges(entries)|
    ensures forall i :: 0 <= i < |IndexChanges(entries)| ==>
              var item := Items(entries, when)[i];
              IndexChanges(entries)[i] == IndexChange(item.path, item.deleted, item.subtree)
  {
    if entries != [] {
      ItemsAreIndexChanges(entries[..|entries| - 1], when);
    }
  }

  /** What a drain set out to do. */
  datatype Plan = Plan(mark: CJ.Mark, reconcile: bool, changes: seq<IndexChange>)

  datatype Outcome = Failed(error: string) | Published(generation: nat)

  class Worker {
    const journal: CJ.Journal
    var draining: bool
    var address: string
    var lastError: string
    var appliedAt: nat

    constructor (journal: CJ.Journal, address: string)
      ensures this.journal == journal && this.address == address && !draining && lastError == ""
    {
      this.journal := journal;
      this.address := address;
      draining, lastError, appliedAt := false, "", 0;
    }

    /** The snapshot is taken once: the mark and the operations describe the same moment. */
    method BeginDrain() returns (plan: Option<Plan>)
      requires CJ.Distinct(journal.pending)
      modifies this`draining
      ensures var j := journal.Value();
              match plan
              case None => j.gap.None? && j.pending == map[] && draining == old(draining)
              case Some(p) =>
                && (j.gap.Some? || j.pending != map[]) && draining
                && p.mark == j.TakeMark() && p.reconcile == j.gap.Some?
                && exists entries :: CJ.Lists(entries, j.pending) && p.changes == IndexChanges(entries)
    {
      var entries := journal.PendingLocked();
      assert entries == [] ==> journal.pending == map[] by {
        assert forall p :: p in journal.pending ==> journal.pending[p] in entries;
      }
      if journal.meta.gap.None? && |entries| == 0 {
        return None;
      }
      if |entries| > 0 { assert entries[0] in journal.pending.Values; }
      var changes := BuildIndexChanges(entries);
      draining := true;
      plan := Some(Plan(Mark(journal.meta), journal.meta.gap.Some?, changes));
    }

    /** A failed request advances nothing; a published one commits or reconciles at its own mark. */
    method EndDrain(plan: Plan, outcome: Outcome, now: nat)
      modifies this, journal
      ensures !draining && address == old(address)
      ensures match outcome
              case Failed(error) =>
                journal.Value() == old(journal.Value()) && lastError == error && appliedAt == old(appliedAt)
              case Published(g) =>
                && journal.Value() == (if plan.reconcile then CJ.Reconciled(old(journal.Value()), plan.mark, g)
                                       else CJ.Advance(old(journal.Value()), plan.mark.sequence, g))
                && lastError == "" && appliedAt == now
    {
      draining := false;
      match outcome {
        case Failed(error) =>
          lastError := error;
        case Published(generation) =>
          if plan.reconcile {
            journal.MarkReconciled(plan.mark, generation);
          } else {
            journal.Commit(plan.mark.sequence, generation);
          }
          appliedAt := now;
          lastError := "";
      }
    }

    /** A moved service keeps the record: only the address and the stale failure change. */
    method Retarget(address: string) returns (moved: bool)
      modifies this`address, this`lastError
      ensures moved <==> address != "" && address != old(this.address)
      ensures moved ==> this.address == address && lastError == ""
      ensures !moved ==> this.address == old(this.address) && lastError == old(lastError)
    {
      if address == "" || address == this.address {
        return false;
      }
      this.address := address;
      lastError := "";
      return true;
    }
  }

  function Mark(meta: CJ.State): CJ.Mark { CJ.Mark(meta.sequence, meta.gapSeq) }
}
