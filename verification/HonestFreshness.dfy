/** What the change-tracking protocol guarantees in every reachable state. */
module HonestFreshness {
  import CJ = ChangeJournal
  import Freshness
  import RecordCover
  import opened Protocol
  import opened ProtocolInvariant
  import opened ProtocolSteps
  import opened ProtocolDrains

  lemma StepKeepsInv(s: State, step: Step)
    requires Inv(s) && Enabled(s, step) && Disciplined(s, step)
    ensures Inv(Do(s, step))
  {
    match step
    case User(c, fate) => UserStep(s, c, fate);
    case Translate => TranslateStep(s);
    case TakeEvent(now) => TakeEventStep(s, now);
    case TakeGap(now) => TakeGapStep(s, now);
    case Snapshot(entries) => SnapshotStep(s, entries);
    case Serve => ServeStep(s);
    case ApplyNext => ApplyNextStep(s);
    case Escalate => EscalateStep(s);
    case Read(p) => ReadStep(s, p);
    case Publish => PublishStep(s);
    case Abort => DropStep(s, Do(s, step));
    case GiveUp => DropStep(s, Do(s, step));
    case Acknowledge(generation) => AcknowledgeStep(s, generation);
    case Save => SaveStep(s);
    case Stop(reason, now) => StopBase(s, reason, now);
    case Crash =>
    case Reopen(now) =>
      ReopenBase(s, now);
      CleanPointInv(Do(s, step));
  }

  lemma {:induction false} RunKeepsInv(s: State, steps: seq<Step>)
    requires Inv(s) && Run(s, steps, true)
    ensures Inv(Reach(s, steps, true))
  {
    if steps != [] {
      RunKeepsInv(s, steps[..|steps| - 1]);
      StepKeepsInv(Reach(s, steps[..|steps| - 1], true), steps[|steps| - 1]);
    }
  }

  // ---------------------------------------------------------------- any run at all

  lemma StepKeepsBase(s: State, step: Step)
    requires Base(s) && Enabled(s, step)
    ensures Base(Do(s, step))
  {
    match step
    case User(c, fate) => UserBase(s, c, fate);
    case Translate => TranslateBase(s);
    case TakeEvent(now) => TakeEventBase(s, now);
    case TakeGap(now) => TakeGapBase(s, now);
    case Acknowledge(generation) => AcknowledgeBase(s, generation);
    case Save => SaveBase(s);
    case Stop(reason, now) => StopBase(s, reason, now);
    case Crash =>
    case Reopen(now) => ReopenBase(s, now);
    case _ => StillBase(s, Do(s, step));
  }

  /** What holds after every run of the code, whatever its environment did. */
  lemma {:induction false} RunKeepsBase(s: State, steps: seq<Step>)
    requires Initial(s) && Run(s, steps, false)
    ensures Base(Reach(s, steps, false))
  {
    if steps != [] {
      RunKeepsBase(s, steps[..|steps| - 1]);
      StepKeepsBase(Reach(s, steps[..|steps| - 1], false), steps[|steps| - 1]);
    }
  }

  /** The invariant needs no past: a clean point establishes it. */
  lemma CleanPointInv(m: State)
    requires Base(m) && CleanPoint(m)
    ensures Inv(m)
  {
  }

  lemma FreshHasNothingPending(r: State)
    requires Inv(r) && Verdict(r) == Freshness.Fresh
    ensures r.journal.gap.None? && r.journal.pending == map[]
  {
    Freshness.FreshNeedsEvidence(View(r), r.up, false);
  }

  lemma FreshStateIsIndexed(r: State, q: Path)
    requires Inv(r) && Verdict(r) == Freshness.Fresh && Quiet(r, q)
    ensures At(r.index, q) == At(r.fs, q)
  {
    FreshHasNothingPending(r);
    assert Agree(r, r.index, 0, q);
    assert !LastAfter(r, 0, q);
  }

  /** Any run at all to a clean point, then a disciplined one. */
  ghost predicate Recovered(s: State, before: seq<Step>, after: seq<Step>) {
    && Initial(s) && Run(s, before, false)
    && CleanPoint(Reach(s, before, false))
    && Run(Reach(s, before, false), after, true)
  }

  ghost function Final(s: State, before: seq<Step>, after: seq<Step>): State
    requires Recovered(s, before, after)
  {
    Reach(Reach(s, before, false), after, true)
  }

  lemma RecoveredInv(s: State, before: seq<Step>, after: seq<Step>)
    requires Recovered(s, before, after)
    ensures Inv(Final(s, before, after))
  {
    RunKeepsBase(s, before);
    CleanPointInv(Reach(s, before, false));
    RunKeepsInv(Reach(s, before, false), after);
  }

  /**
   Honest freshness. Start from any disk and any index and let anything happen: unwatched
   changes, replaced entries, odd names, losses, crashes. From the next start, or the next
   reconciliation, on, let every step keep the discipline. However the user, the watcher, the
   worker, the service, failures and restarts interleave: when the verdict is fresh, the
   index holds exactly what the disk holds at every path about which no notification is on
   its way.
   */
  lemma FreshMeansIndexed(s: State, before: seq<Step>, after: seq<Step>, q: Path)
    requires Recovered(s, before, after)
    requires var r := Final(s, before, after); Verdict(r) == Freshness.Fresh && Quiet(r, q)
    ensures var r := Final(s, before, after); At(r.index, q) == At(r.fs, q)
  {
    RecoveredInv(s, before, after);
    FreshStateIsIndexed(Final(s, before, after), q);
  }

  /** The whole index equals the whole disk once nothing at all is on its way. */
  lemma FreshAndIdleMeansEqual(s: State, before: seq<Step>, after: seq<Step>)
    requires Recovered(s, before, after)
    requires var r := Final(s, before, after);
             Verdict(r) == Freshness.Fresh && r.native == [] && r.events == [] && r.gaps == []
    ensures var r := Final(s, before, after); r.index == r.fs
  {
    var r := Final(s, before, after);
    forall q ensures At(r.index, q) == At(r.fs, q) {
      FreshMeansIndexed(s, before, after, q);
    }
    forall q ensures q in r.index <==> q in r.fs { assert At(r.index, q) == At(r.fs, q); }
    forall q | q in r.index ensures r.index[q] == r.fs[q] { assert At(r.index, q) == At(r.fs, q); }
  }

  /**
   Not only the verdict: whenever the record is complete, every path the index is wrong
   about is named by what is pending or by a notification on its way. Applying what is
   pending is therefore always enough.
   */
  lemma WrongPathsAreAccountedFor(s: State, before: seq<Step>, after: seq<Step>, q: Path)
    requires Recovered(s, before, after)
    requires var r := Final(s, before, after);
             r.up && r.journal.gap.None? && Quiet(r, q) && At(r.index, q) != At(r.fs, q)
    ensures RecordCover.Covered(Final(s, before, after).journal.pending, q)
  {
    var r := Final(s, before, after);
    RecoveredInv(s, before, after);
    assert Agree(r, r.index, 0, q) && LastAfter(r, 0, q);
    LastIsPending(r, q);
  }

  lemma LastIsPending(r: State, q: Path)
    requires Recorded(r.history, r.journal, r.when, r.recorded) && LastAfter(r, 0, q)
    requires !InFlight(r, LastTouch(r.history, q))
    ensures RecordCover.Covered(r.journal.pending, q)
  {
    var p :| p in r.when && r.when[p] == LastTouch(r.history, q);
    assert EntryOk(r.history, r.journal, r.when, r.recorded, p);
    assert RecordCover.Settles(r.journal.pending[p], q);
  }

  // ---------------------------------------------------------------- the other verdicts

  /**
   What is reported after any run at all: updating while a drain is under way, unknown while
   nothing watches, stale while the record has a gap or something is pending, and fresh only
   with none of these.
   */
  lemma VerdictIsExact(s: State, steps: seq<Step>)
    requires Initial(s) && Run(s, steps, false)
    ensures var r := Reach(s, steps, false);
            match Verdict(r)
            case Updating => r.up && r.drain.Some?
            case Unknown => !r.up
            case Stale => r.up && r.drain.None? && (r.journal.gap.Some? || r.journal.pending != map[])
            case Fresh => r.up && r.drain.None? && r.journal.gap.None? && r.journal.pending == map[]
  {
    var r := Reach(s, steps, false);
    RunKeepsBase(s, steps);
    Freshness.VerdictsAreExact(View(r), r.up, false);
    Freshness.FreshNeedsEvidence(View(r), r.up, false);
    assert |r.journal.pending| == 0 <==> r.journal.pending == map[];
  }

  /** Every start is reported stale until a reconciliation: opening leaves a gap, whatever was stored. */
  lemma StartIsStale(s: State, steps: seq<Step>, now: nat)
    requires Initial(s) && Run(s, steps, false) && !Reach(s, steps, false).up
    ensures Verdict(Do(Reach(s, steps, false), Reopen(now))) == Freshness.Stale
  {
    var r := Reach(s, steps, false);
    RunKeepsBase(s, steps);
    ReopenBase(r, now);
    Freshness.VerdictsAreExact(View(Do(r, Reopen(now))), true, false);
  }

  // ---------------------------------------------------------------- no silent loss

  /** The watcher is about to lose an event: a full channel, or a kernel overflow. */
  predicate Loses(s: State) {
    s.native != [] && (s.native[0].Overflow? || |s.events| >= s.eventCap)
  }

  predicate KeepsRunning(step: Step) {
    !step.TakeGap? && !step.Stop? && !step.Crash? && !step.Reopen?
  }

  /**
   No silent loss: from the moment an event is lost, however full the gap channel was and
   whatever else happens, a notice stays queued until one is read; and reading it opens a
   gap newer than any mark taken before.
   */
  lemma {:induction false} LossIsNoticed(s: State, steps: seq<Step>)
    requires s.up && s.gapCap > 0 && Loses(s)
    requires Run(DoTranslate(s), steps, false)
    requires forall i :: 0 <= i < |steps| ==> KeepsRunning(steps[i])
    ensures var r := Reach(DoTranslate(s), steps, false);
            && r.gaps != [] && r.journal.gapSeq >= s.journal.gapSeq
            && forall now :: DoTakeGap(r, now).journal.gap.Some? && DoTakeGap(r, now).journal.gapSeq > s.journal.gapSeq
  {
    if steps != [] {
      var rest := steps[..|steps| - 1];
      LossIsNoticed(s, rest);
      var r := Reach(DoTranslate(s), rest, false);
      RunningKeepsNotices(r, steps[|steps| - 1]);
    }
  }

  lemma TakeEventKeepsNotices(s: State, now: nat)
    requires s.events != [] && 0 < s.events[0] <= |s.history|
    ensures DoTakeEvent(s, now).gaps == s.gaps && DoTakeEvent(s, now).journal.gapSeq >= s.journal.gapSeq
  {
    CJ.RecordSingle(s.journal, s.history[s.events[0] - 1], s.maxPending, now);
  }

  lemma RunningKeepsNotices(s: State, step: Step)
    requires Enabled(s, step) && KeepsRunning(step) && s.gaps != []
    ensures Do(s, step).gaps != [] && Do(s, step).journal.gapSeq >= s.journal.gapSeq
  {
    match step
    case TakeEvent(now) => TakeEventKeepsNotices(s, now);
    case Translate => TranslateFrame(s);
    case _ =>
  }
}
