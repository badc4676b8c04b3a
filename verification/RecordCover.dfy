/** Exactly when recording one observation loses what an earlier one would have settled. */
module RecordCover {
  // The journal keeps one entry per path (journal.go:213-234), so a newer observation replaces
  // an older one. The pending list then names less than was observed in precisely one
  // situation, which is decided by the entry being replaced.

  import opened Text
  import CJ = ChangeJournal
  import opened Protocol

  predicate Settles(entry: CJ.Entry, q: Path) {
    Touches(CJ.Event(entry.path, entry.kind, entry.directory, entry.at), q)
  }

  ghost predicate Covered(pending: map<string, CJ.Entry>, q: Path) {
    exists p :: p in pending && Settles(pending[p], q)
  }

  /** Recording `e` keeps every path that was covered, and covers what `e` itself touches. */
  ghost predicate NothingLost(j: CJ.State, e: CJ.Event) {
    forall q :: Covered(j.pending, q) || Touches(e, q) ==> Covered(CJ.Put(j, e).pending, q)
  }

  /** Another pending entry removes a directory above `path`. */
  predicate RemovedAbove(pending: map<string, CJ.Entry>, path: Path) {
    exists a :: a in pending && a != path && pending[a].kind == CJ.Removed && pending[a].directory && Under(a, path)
  }

  predicate Replaceable(j: CJ.State, e: CJ.Event) {
    || e.path !in j.pending
    || KeepsCover(j.pending[e.path].kind, j.pending[e.path].directory, e)
    || RemovedAbove(j.pending, e.path)
  }

  lemma UnderIsTransitive(a: Path, d: Path, q: Path)
    requires Under(a, d) && (q == d || Under(d, q))
    ensures Under(a, q)
  {
    assert a + "/" <= d <= q;
  }

  lemma ReplaceableKeeps(j: CJ.State, e: CJ.Event, q: Path)
    requires CJ.SelfKeyed(j.pending) && Replaceable(j, e)
    requires Covered(j.pending, q) || Touches(e, q)
    ensures Covered(CJ.Put(j, e).pending, q)
  {
    var after := CJ.Put(j, e).pending;
    assert after[e.path] == CJ.EntryFor(j.sequence + 1, e);
    if Touches(e, q) {
      assert Settles(after[e.path], q);
    } else {
      var p :| p in j.pending && Settles(j.pending[p], q);
      if p != e.path {
        assert after[p] == j.pending[p];
      } else {
        assert RemovedAbove(j.pending, e.path);
        var a :| a in j.pending && a != e.path && j.pending[a].kind == CJ.Removed && j.pending[a].directory && Under(a, e.path);
        UnderIsTransitive(a, e.path, q);
        assert after[a] == j.pending[a] && Settles(after[a], q);
      }
    }
  }

  function Fill(n: nat): (s: string)
    ensures |s| == n && forall i :: 0 <= i < n ==> s[i] == 'a'
  {
    seq(n, _ => 'a')
  }

  /** Some length exceeds every path in a finite set. */
  lemma {:induction false} LongerThanAll(paths: set<Path>) returns (n: nat)
    ensures forall p :: p in paths ==> |p| < n
    decreases |paths|
  {
    if paths == {} {
      n := 0;
    } else {
      var p :| p in paths;
      var m := LongerThanAll(paths - {p});
      n := if |p| < m then m else |p| + 1;
      forall x | x in paths ensures |x| < n { if x != p { assert x in paths - {p}; } }
    }
  }

  /** A directory removed above neither `d` nor at `d` cannot reach a long slash-free name in `d`. */
  lemma OutOfReach(a: Path, d: Path, n: nat)
    requires a != d && !Under(a, d)
    ensures !Under(a, d + "/" + Fill(n))
  {
    var q := d + "/" + Fill(n);
    if |a| < |d| {
      assert q[..|a| + 1] == d[..|a| + 1];
    } else if |a| == |d| {
      assert q[..|a|] == d && (a + "/")[..|a|] == a;
    } else if |a| < |q| {
      assert q[|a|] == 'a' && (a + "/")[|a|] == '/';
    }
  }

  lemma LostWitness(j: CJ.State, e: CJ.Event) returns (q: Path)
    requires CJ.SelfKeyed(j.pending) && !Replaceable(j, e)
    ensures Covered(j.pending, q) && !Covered(CJ.Put(j, e).pending, q)
  {
    var prior, after := j.pending[e.path], CJ.Put(j, e).pending;
    var n := LongerThanAll(j.pending.Keys);
    q := if prior.kind == CJ.Removed && prior.directory && !(e.kind == CJ.Removed && e.directory)
         then e.path + "/" + Fill(n) else e.path;
    assert e.path + "/" <= e.path + "/" + Fill(n);
    assert Settles(prior, q);
    forall p | p in after ensures !Settles(after[p], q) {
      if p != e.path {
        assert after[p] == j.pending[p] && |p| < n;
        if j.pending[p].kind == CJ.Removed && j.pending[p].directory { OutOfReach(p, e.path, n); }
      }
    }
  }

  /**
   Exactly: recording an observation loses no path's coverage if and only if the path has no
   pending entry, or the new observation covers what that entry did, or a directory above it
   is itself pending removal. The condition reads only the journal and the event.
   */
  lemma RecordLosesNothingExactly(j: CJ.State, e: CJ.Event)
    requires CJ.SelfKeyed(j.pending)
    ensures NothingLost(j, e) <==> Replaceable(j, e)
  {
    if Replaceable(j, e) {
      forall q | Covered(j.pending, q) || Touches(e, q) ensures Covered(CJ.Put(j, e).pending, q) {
        ReplaceableKeeps(j, e, q);
      }
    } else {
      var q := LostWitness(j, e);
    }
  }

  // ---------------------------------------------------------------- the same, on the protocol's step

  ghost predicate Announced(s: State, q: Path) {
    exists t: nat :: 0 < t <= |s.history| && InFlight(s, t) && Touches(s.history[t - 1], q)
  }

  /** Every path an index is wrong about is named by what is pending or by what is on its way. */
  ghost predicate Accounts(s: State, fs: map<Path, Content>, index: map<Path, Content>) {
    forall q :: At(index, q) != At(fs, q) ==> Covered(s.journal.pending, q) || Announced(s, q)
  }

  lemma TakenAccounts(s: State, t: nat, now: nat)
    requires s.events == [t] && s.native == [] && 0 < t <= |s.history|
    requires Trimmed(s.history[t - 1].path) && CJ.Accepted(s.history[t - 1])
    requires |CJ.Put(s.journal, s.history[t - 1]).pending| <= s.maxPending
    ensures var s' := DoTakeEvent(s, now); s'.journal == CJ.Put(s.journal, s.history[t - 1]) && forall q :: !Announced(s', q)
    ensures forall q :: Announced(s, q) <==> Touches(s.history[t - 1], q)
  {
    TrimmedIsFixed(s.history[t - 1].path);
    CJ.RecordSingle(s.journal, s.history[t - 1], s.maxPending, now);
    assert InFlight(s, t);
  }

  /**
   Exactly: taking the last queued event keeps every wrong path accounted for, whatever the
   disk and the index hold, if and only if the entry it replaces could be replaced. When it
   could not, some disk and index are accounted for before the step and not after it.
   */
  lemma TakeEventKeepsAccountsExactly(s: State, t: nat, now: nat)
    requires CJ.SelfKeyed(s.journal.pending)
    requires s.events == [t] && s.native == [] && 0 < t <= |s.history|
    requires Trimmed(s.history[t - 1].path) && CJ.Accepted(s.history[t - 1])
    requires |CJ.Put(s.journal, s.history[t - 1]).pending| <= s.maxPending
    ensures (forall fs, index :: Accounts(s, fs, index) ==> Accounts(DoTakeEvent(s, now), fs, index))
            <==> Replaceable(s.journal, s.history[t - 1])
  {
    var e, s' := s.history[t - 1], DoTakeEvent(s, now);
    TakenAccounts(s, t, now);
    RecordLosesNothingExactly(s.journal, e);
    if !Replaceable(s.journal, e) {
      var q := LostWitness(s.journal, e);
      var fs: map<Path, Content> := map[q := ""];
      assert At(map[], q) != At(fs, q);
      assert Accounts(s, fs, map[]) && !Accounts(s', fs, map[]);
    }
  }
}
