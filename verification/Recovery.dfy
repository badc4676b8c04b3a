/** From every state the protocol can reach, some run settles it. */
module Recovery {
  // Settled means nothing queued, no gap, nothing pending, and the index equal to the disk as
  // it was. FreshnessBreaches continues such runs; here are the pieces they are made of.

  import opened Text
  import CJ = ChangeJournal
  import Freshness
  import opened Protocol
  import opened ProtocolInvariant
  import opened ProtocolSteps
  import opened HonestFreshness

  /** A run of the code, disciplined if `strict`, that ends in a given state. */
  ghost predicate Ends(m: State, steps: seq<Step>, at: State, strict: bool) {
    Run(m, steps, strict) && Reach(m, steps, strict) == at
  }

  lemma Then(m: State, steps: seq<Step>, at: State, step: Step, strict: bool)
    requires Ends(m, steps, at, strict) && Enabled(at, step) && (strict ==> Disciplined(at, step))
    ensures Ends(m, steps + [step], Do(at, step), strict)
  {
    assert (steps + [step])[..|steps|] == steps;
  }

  lemma Last(m: State, steps: seq<Step>, end: State) returns (at: State)
    requires |steps| > 0 && Ends(m, steps, end, false)
    ensures Ends(m, steps[..|steps| - 1], at, false)
    ensures Enabled(at, steps[|steps| - 1]) && Do(at, steps[|steps| - 1]) == end
  {
    at := Reach(m, steps[..|steps| - 1], false);
  }

  /** A run continued by a run. */
  lemma {:induction false} Continued(s: State, before: seq<Step>, m: State, more: seq<Step>, end: State)
    requires Ends(s, before, m, false) && Ends(m, more, end, false)
    ensures Ends(s, before + more, end, false)
    decreases |more|
  {
    if |more| == 0 {
      assert before + more == before;
    } else {
      var n := |more| - 1;
      var at := Last(m, more, end);
      Continued(s, before, m, more[..n], at);
      assert before + more == (before + more[..n]) + [more[n]];
      Then(s, before + more[..n], at, more[n], false);
    }
  }

  lemma SameEverywhere(a: map<Path, Content>, b: map<Path, Content>)
    requires forall q :: At(a, q) == At(b, q)
    ensures a == b
  {
    forall q ensures q in a <==> q in b { assert At(a, q) == At(b, q); }
    forall q | q in a ensures a[q] == b[q] { assert At(a, q) == At(b, q); }
  }

  // ---------------------------------------------------------------- a listing of the pending map

  lemma Place(entries: seq<CJ.Entry>, num: nat) returns (k: nat)
    requires CJ.Ordered(entries)
    ensures k <= |entries|
    ensures forall i :: 0 <= i < k ==> entries[i].num < num
    ensures forall i :: k <= i < |entries| ==> num <= entries[i].num
  {
    k := |entries|;
    while k > 0 && entries[k - 1].num >= num
      invariant k <= |entries| && forall i :: k <= i < |entries| ==> num <= entries[i].num
    {
      k := k - 1;
    }
  }

  /** Every pending map with distinct numbers has an oldest-first listing. */
  lemma {:induction false} Listing(pending: map<string, CJ.Entry>) returns (entries: seq<CJ.Entry>)
    requires CJ.Distinct(pending)
    ensures CJ.Lists(entries, pending)
    decreases |pending|
  {
    if pending == map[] {
      entries := [];
    } else {
      var p :| p in pending;
      var fewer, e := pending - {p}, pending[p];
      assert pending.Keys == fewer.Keys + {p};
      var rest := Listing(fewer);
      forall i | 0 <= i < |rest| ensures rest[i].num != e.num {
        assert rest[i] in fewer.Values;
        var x :| x in fewer && fewer[x] == rest[i];
        assert x in pending;
      }
      var k := Place(rest, e.num);
      CJ.InsertedOrdered(rest, k, e);
      CJ.InsertedMembers(rest, k, e);
      entries := CJ.Inserted(rest, k, e);
      forall i | 0 <= i < |entries| ensures entries[i] in pending.Values {
        assert entries[i] in entries;
        if entries[i] != e {
          var x :| x in fewer && fewer[x] == entries[i];
          assert pending[x] == entries[i];
        }
      }
    }
  }

  // ---------------------------------------------------------------- reconciling

  /** A walk in progress: what it has visited is as on disk, and it need not look elsewhere. */
  ghost predicate Walking(at: State, required: set<Path>) {
    && at.job.Some? && at.job.value.Full? && at.job.value.required == required
    && forall q :: q in at.job.value.visited || q !in required ==> At(at.job.value.work, q) == At(at.fs, q)
  }

  lemma {:induction false} ReadAll(m: State, steps: seq<Step>, at: State, required: set<Path>, strict: bool)
    returns (more: seq<Step>, visited: set<Path>)
    requires Ends(m, steps, at, strict) && Walking(at, required)
    ensures Ends(m, more, at.(job := Some(Full(at.fs, required, visited))), strict)
    ensures required <= visited
    decreases |required - at.job.value.visited|
  {
    var j := at.job.value;
    if required <= j.visited {
      SameEverywhere(j.work, at.fs);
      more, visited := steps, j.visited;
    } else {
      var p :| p in required && p !in j.visited;
      Then(m, steps, at, Read(p), strict);
      assert required - j.visited == (required - (j.visited + {p})) + {p};
      more, visited := ReadAll(m, steps + [Read(p)], Do(at, Read(p)), required, strict);
    }
  }

  predicate NoRemovalSent(at: State) {
    forall i :: 0 <= i < |at.events| && 0 < at.events[i] <= |at.history| ==> at.history[at.events[i] - 1].kind != CJ.Removed
  }

  /** A reconciliation that has read the whole disk and not answered yet. */
  ghost predicate Walked(at: State, walked: State) {
    && walked == at.(drain := walked.drain, job := walked.job)
    && walked.job.Some? && Finished(walked.job.value) && walked.job.value.work == at.fs
    && walked.drain.Some?
    && walked.drain.value == Drain(at.journal.TakeMark(), true, walked.drain.value.items, at.recorded, Serving)
  }

  lemma Walk(m: State, steps: seq<Step>, at: State, strict: bool) returns (more: seq<Step>, walked: State)
    requires Ends(m, steps, at, strict) && CJ.Distinct(at.journal.pending)
    requires at.up && at.drain.None? && at.job.None? && at.journal.gap.Some? && (strict ==> NoRemovalSent(at))
    ensures Ends(m, more, walked, strict) && Walked(at, walked)
  {
    var entries := Listing(at.journal.pending);
    Then(m, steps, at, Snapshot(entries), strict);
    var asked := DoSnapshot(at, entries);
    Then(m, steps + [Snapshot(entries)], asked, Serve, strict);
    var serving := DoServe(asked);
    var required := at.fs.Keys + at.index.Keys;
    var visited;
    more, visited := ReadAll(m, steps + [Snapshot(entries)] + [Serve], serving, required, strict);
    walked := serving.(job := Some(Full(at.fs, required, visited)));
  }

  /** The service publishes and the worker acknowledges. */
  lemma Answer(m: State, steps: seq<Step>, at: State, strict: bool) returns (more: seq<Step>)
    requires Ends(m, steps, at, strict) && Attached(at) && at.job.Some? && Finished(at.job.value)
    ensures Ends(m, more, DoAcknowledge(DoPublish(at), 1), strict)
  {
    Then(m, steps, at, Publish, strict);
    Then(m, steps + [Publish], DoPublish(at), Acknowledge(1), strict);
    more := steps + [Publish] + [Acknowledge(1)];
  }

  /** Nothing pending, no gap, and the index is the disk; the queues are as they were. */
  ghost predicate Reconciled(at: State, r: State) {
    && r == at.(index := at.fs, drain := None, job := None, when := map[], journal := r.journal)
    && r.journal.gap.None? && r.journal.pending == map[] && r.journal.sequence == at.journal.sequence
  }

  lemma AcknowledgedAll(at: State, walked: State)
    requires Walked(at, walked) && Numbered(at.journal)
    ensures Reconciled(at, DoAcknowledge(DoPublish(walked), 1))
  {
    var r := DoAcknowledge(DoPublish(walked), 1);
    assert forall p :: p in at.journal.pending ==> at.journal.pending[p].num <= walked.drain.value.mark.sequence;
    assert r.journal.pending == map[] && r.when == map[];
  }

  lemma Reconcile(m: State, steps: seq<Step>, at: State, strict: bool) returns (more: seq<Step>, r: State)
    requires Ends(m, steps, at, strict) && Numbered(at.journal)
    requires at.up && at.drain.None? && at.job.None? && at.journal.gap.Some? && (strict ==> NoRemovalSent(at))
    ensures Ends(m, more, r, strict) && Reconciled(at, r)
  {
    var walked;
    more, walked := Walk(m, steps, at, strict);
    more := Answer(m, more, walked, strict);
    r := DoAcknowledge(DoPublish(walked), 1);
    AcknowledgedAll(at, walked);
  }

  // ---------------------------------------------------------------- settling

  predicate Silent(at: State) { at.native == [] && at.events == [] && at.gaps == [] }

  /** Everything queued is translated and recorded. */
  lemma {:induction false} Flush(m: State, steps: seq<Step>, at: State) returns (more: seq<Step>, r: State)
    requires Ends(m, steps, at, false) && Base(at) && at.up
    ensures Ends(m, more, r, false) && Base(r) && r.up && Silent(r) && r.fs == at.fs
    decreases 2 * |at.native| + |at.events| + |at.gaps|
  {
    if Silent(at) {
      more, r := steps, at;
    } else {
      var step := if at.native != [] then Translate else if at.events != [] then TakeEvent(0) else TakeGap(0);
      if at.native != [] { TranslateFrame(at); }
      StepKeepsBase(at, step);
      Then(m, steps, at, step, false);
      more, r := Flush(m, steps + [step], Do(at, step));
    }
  }

  /** Whatever request is under way is dropped. */
  lemma Drop(m: State, steps: seq<Step>, at: State) returns (more: seq<Step>, r: State)
    requires Ends(m, steps, at, false) && Base(at) && at.up && Silent(at)
    ensures Ends(m, more, r, false) && r == at.(drain := None, job := None) && Base(r)
  {
    more, r := steps, at;
    if r.job.Some? {
      StepKeepsBase(r, Abort);
      Then(m, more, r, Abort, false);
      more, r := more + [Abort], Do(r, Abort);
    }
    if r.drain.Some? {
      StepKeepsBase(r, GiveUp);
      Then(m, more, r, GiveUp, false);
      more, r := more + [GiveUp], Do(r, GiveUp);
    }
  }

  /** A notification lost with no change behind it, up to the gap it opens. */
  function Lost(at: State, f: Path): State
    requires at.gapCap > 0
  {
    at.(history := at.history + [EventOf(Touch(f))], journal := CJ.MarkGap(at.journal, Reason(WatcherOverflow), 0, 0))
  }

  /** The kernel has overflowed, then the watcher has told. */
  function Overflowed(at: State, f: Path): State {
    at.(history := at.history + [EventOf(Touch(f))], native := [Overflow])
  }

  function Told(at: State, f: Path): State {
    at.(history := at.history + [EventOf(Touch(f))], gaps := [WatcherOverflow])
  }

  lemma LossSteps(at: State, f: Path)
    requires at.up && Silent(at) && at.gapCap > 0
    ensures Do(at, User(Touch(f), KernelLoss)) == Overflowed(at, f)
    ensures Do(Overflowed(at, f), Translate) == Told(at, f)
    ensures Do(Told(at, f), TakeGap(0)) == Lost(at, f)
  {
  }

  lemma Lose(m: State, steps: seq<Step>, at: State, f: Path, strict: bool) returns (more: seq<Step>)
    requires Ends(m, steps, at, strict) && at.up && Silent(at) && at.gapCap > 0
    ensures Ends(m, more, Lost(at, f), strict)
  {
    var step := User(Touch(f), KernelLoss);
    LossSteps(at, f);
    Then(m, steps, at, step, strict);
    Then(m, steps + [step], Overflowed(at, f), Translate, strict);
    Then(m, steps + [step] + [Translate], Told(at, f), TakeGap(0), strict);
    more := steps + [step] + [Translate] + [TakeGap(0)];
  }

  lemma LostBase(at: State, f: Path)
    requires Base(at) && at.up && Silent(at)
    ensures Base(Lost(at, f))
  {
    LossSteps(at, f);
    StepKeepsBase(at, User(Touch(f), KernelLoss));
    StepKeepsBase(Overflowed(at, f), Translate);
    StepKeepsBase(Told(at, f), TakeGap(0));
  }

  /** Running, nothing queued, pending or under way, no gap, and the index is the disk. */
  ghost predicate Idle(at: State) {
    && Base(at) && at.up && Silent(at) && at.drain.None? && at.job.None?
    && at.journal.gap.None? && at.journal.pending == map[] && at.when == map[]
    && at.index == at.fs
  }

  lemma ReconciledIsIdle(at: State, r: State)
    requires Base(at) && at.up && Silent(at) && Reconciled(at, r)
    ensures Idle(r)
  {
  }

  lemma WakeUp(m: State) returns (more: seq<Step>, r: State)
    requires Base(m)
    ensures Ends(m, more, r, false) && Base(r) && r.up && r.fs == m.fs
  {
    more, r := [], m;
    if !m.up {
      StepKeepsBase(m, Reopen(0));
      Then(m, [], m, Reopen(0), false);
      more, r := [] + [Reopen(0)], Do(m, Reopen(0));
    }
  }

  /**
   Every state of every run can be settled, however it came about: some continuation that
   changes nothing on disk ends fresh with the whole index equal to the whole disk.
   */
  lemma Settles(s: State, before: seq<Step>) returns (more: seq<Step>, at: State)
    requires Initial(s) && Run(s, before, false)
    ensures Ends(Reach(s, before, false), more, at, false) && Idle(at)
    ensures at.fs == Reach(s, before, false).fs && Verdict(at) == Freshness.Fresh
  {
    var m := Reach(s, before, false);
    RunKeepsBase(s, before);
    more, at := WakeUp(m);
    more, at := Flush(m, more, at);
    more, at := Drop(m, more, at);
    if at.journal.gap.None? {
      more := Lose(m, more, at, "f", false);
      LostBase(at, "f");
      at := Lost(at, "f");
    }
    var r;
    more, r := Reconcile(m, more, at, false);
    ReconciledIsIdle(at, r);
    at := r;
  }
}
