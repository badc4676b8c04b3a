/**
 A worker from start to stop (internal/watchsupervisor/worker.go:101-244, 356-383): the event
 loop, any number of settles and flushes racing for the drain lock, and one release.
 */
module Lifecycle {
  import opened Text
  import CJ = ChangeJournal
  import Runs = JournalRuns

  datatype Kind = Settle | Flush

  /** Where the goroutine behind one settle or flush is. */
  datatype Pc =
    | Called                                  // before the first look at `stopped`
    | Ready                                   // about to take the lock
    | Locked                                  // holds it, about to look at `stopped` again
    | Working(mark: CJ.Mark, reconcile: bool) // inside drain, request under way
    | Done(caughtUp: bool)

  /** `since` is the journal's sequence when the settle or flush was called. */
  datatype Thread = Thread(kind: Kind, pc: Pc, since: nat)

  datatype StopPc = NotStopping | DoneClosed | LoopEnded | Flagged | DrainsOver | WatcherClosed | GapSet | Returned

  function Rank(p: StopPc): nat {
    match p
    case NotStopping => 0 case DoneClosed => 1 case LoopEnded => 2 case Flagged => 3
    case DrainsOver => 4 case WatcherClosed => 5 case GapSet => 6 case Returned => 7
  }

  datatype State = State(
    world: Runs.World, looping: bool, threads: map<nat, Thread>, lock: Option<nat>, stopping: StopPc)
  {
    predicate Stopped() { Rank(stopping) >= 3 }
    predicate Holds(id: nat) { id in threads && (threads[id].pc.Locked? || threads[id].pc.Working?) }
    function With(id: nat, pc: Pc): State
      requires id in threads
    {
      this.(threads := threads[id := threads[id].(pc := pc)])
    }
  }

  datatype Step =
    | LoopRecord(events: seq<CJ.Event>, now: nat)
    | LoopGap(reason: string, at: nat, now: nat)
    | Call(id: nat, kind: Kind)               // settle from the loop, retarget, or flush
    | Persist
    | LoopEnd
    | CheckStopped(id: nat)
    | TakeLock(id: nat)
    | MissLock(id: nat)
    | Inspect(id: nat)
    | Fail(id: nat)
    | Succeed(id: nat, generation: nat)
    | StopStep(reason: string, now: nat)

  predicate Enabled(s: State, step: Step) {
    match step
    case LoopRecord(_, _) => s.looping
    case LoopGap(_, _, _) => s.looping
    case Call(id, kind) => id !in s.threads
    case Persist => true
    case LoopEnd => s.looping && Rank(s.stopping) >= 1
    case CheckStopped(id) => id in s.threads && s.threads[id].pc.Called?
    case TakeLock(id) => id in s.threads && s.threads[id].pc.Ready? && s.lock.None?
    case MissLock(id) => id in s.threads && s.threads[id].pc.Ready? && s.threads[id].kind == Settle && s.lock.Some?
    case Inspect(id) => id in s.threads && s.threads[id].pc.Locked?
    case Fail(id) => id in s.threads && s.threads[id].pc.Working?
    case Succeed(id, _) => id in s.threads && s.threads[id].pc.Working? && s.threads[id].pc.mark in s.world.marks
    case StopStep(_, _) =>
      match s.stopping
      case DoneClosed => !s.looping          // <-w.finished
      case Flagged => s.lock.None?           // waiting out a running drain
      case Returned => false
      case _ => true
  }

  function Stop(s: State, reason: string, now: nat): State {
    match s.stopping
    case NotStopping => s.(stopping := DoneClosed)
    case DoneClosed => s.(stopping := LoopEnded)
    case LoopEnded => s.(stopping := Flagged)
    case Flagged => s.(stopping := DrainsOver)
    case DrainsOver => s.(stopping := WatcherClosed)
    case WatcherClosed => s.(stopping := GapSet, world := Runs.Next(s.world, Runs.Break(reason, now, now)))
    case GapSet => s.(stopping := Returned, world := Runs.Next(s.world, Runs.Save))
    case Returned => s
  }

  /** Under the lock: a stopped worker does nothing, and neither does one with nothing to apply. */
  function Look(s: State, id: nat): State
    requires id in s.threads
  {
    var j := s.world.journal;
    if s.Stopped() then s.With(id, Done(false)).(lock := None)
    else if j.gap.None? && j.pending == map[] then s.With(id, Done(true)).(lock := None)
    else s.With(id, Working(j.TakeMark(), j.gap.Some?)).(world := Runs.Next(s.world, Runs.TakeMark))
  }

  function Finish(s: State, id: nat, generation: nat): State
    requires Enabled(s, Succeed(id, generation))
  {
    var pc := s.threads[id].pc;
    var op := if pc.reconcile then Runs.Reconcile(pc.mark, generation) else Runs.Commit(pc.mark, generation);
    s.With(id, Done(true)).(lock := None, world := Runs.Next(s.world, op))
  }

  function Do(s: State, step: Step): State
    requires Enabled(s, step)
  {
    match step
    case LoopRecord(events, now) => s.(world := Runs.Next(s.world, Runs.Observe(events, now)))
    case LoopGap(reason, at, now) => s.(world := Runs.Next(s.world, Runs.Break(reason, at, now)))
    case Call(id, kind) => s.(threads := s.threads[id := Thread(kind, Called, s.world.journal.sequence)])
    case Persist => s.(world := Runs.Next(s.world, Runs.Save))
    case LoopEnd => s.(looping := false)
    case CheckStopped(id) => s.With(id, if s.Stopped() then Done(false) else Ready)
    case TakeLock(id) => s.With(id, Locked).(lock := Some(id))
    case MissLock(id) => s.With(id, Done(false))
    case Inspect(id) => Look(s, id)
    case Fail(id) => s.With(id, Done(false)).(lock := None)
    case Succeed(id, generation) => Finish(s, id, generation)
    case StopStep(reason, now) => Stop(s, reason, now)
  }

  /**
   A worker just started on any journal that runs and restarts can leave behind, pending
   entries and an old gap included (JournalRuns.RunsKeepInv).
   */
  ghost predicate Initial(s: State) {
    && s.looping && s.threads == map[] && s.lock.None? && s.stopping.NotStopping?
    && Runs.Inv(s.world)
  }

  predicate Run(s: State, steps: seq<Step>)
    decreases |steps|, 0
  {
    steps == [] || (Run(s, steps[..|steps| - 1]) && Enabled(Reach(s, steps[..|steps| - 1]), steps[|steps| - 1]))
  }

  function Reach(s: State, steps: seq<Step>): State
    requires Run(s, steps)
    decreases |steps|, 1
  {
    if steps == [] then s else Do(Reach(s, steps[..|steps| - 1]), steps[|steps| - 1])
  }

  // ---------------------------------------------------------------- the invariant

  ghost predicate ThreadOk(s: State, t: Thread) {
    && t.since <= s.world.journal.sequence
    && (t.pc.Working? ==> t.pc.mark in s.world.marks && t.since <= t.pc.mark.sequence && Rank(s.stopping) < 4)
    && (t.pc == Done(true) ==> t.since <= s.world.journal.checkpoint)
  }

  ghost predicate Inv(s: State) {
    && Runs.Inv(s.world)
    && (forall id :: id in s.threads ==> ThreadOk(s, s.threads[id]))
    && (forall id: nat :: s.Holds(id) <==> s.lock == Some(id))
    && (Rank(s.stopping) >= 2 ==> !s.looping)
    && (Rank(s.stopping) >= 6 ==> s.world.journal.gap.Some?)
    && (Rank(s.stopping) >= 7 ==> s.world.saved.Some? && s.world.saved.value.0 == s.world.journal)
  }

  lemma OpGrows(w: Runs.World, op: Runs.Op)
    requires Runs.Inv(w) && Runs.Enabled(w, op) && !op.Restart?
    ensures Runs.Inv(Runs.Next(w, op))
    ensures w.journal.sequence <= Runs.Next(w, op).journal.sequence
    ensures w.journal.checkpoint <= Runs.Next(w, op).journal.checkpoint
    ensures w.marks <= Runs.Next(w, op).marks
    ensures !op.Reconcile? && w.journal.gap.Some? ==> Runs.Next(w, op).journal.gap.Some?
  {
    Runs.NextKeepsInv(w, op);
    if op.Observe? {
      Runs.RecordEachTracks(w.journal, w.log, w.lost, op.events);
    }
  }

  /** Steps that change only the journal. */
  lemma JournalStep(s: State, op: Runs.Op)
    requires Inv(s) && Runs.Enabled(s.world, op) && !op.Restart? && !op.Reconcile? && (Rank(s.stopping) >= 7 ==> op.Save?)
    ensures Inv(s.(world := Runs.Next(s.world, op)))
  {
    OpGrows(s.world, op);
    var s' := s.(world := Runs.Next(s.world, op));
    forall id | id in s'.threads ensures ThreadOk(s', s'.threads[id]) { assert ThreadOk(s, s.threads[id]); }
    assert forall id: nat :: s'.Holds(id) == s.Holds(id);
  }

  /** Steps of one thread that leave the journal alone. */
  lemma ThreadStep(s: State, id: nat, pc: Pc, lock: Option<nat>)
    requires Inv(s) && id in s.threads && ThreadOk(s, s.threads[id].(pc := pc))
    requires (pc.Locked? || pc.Working?) <==> lock == Some(id)
    requires lock != Some(id) ==> lock == if s.lock == Some(id) then None else s.lock
    requires lock == Some(id) ==> s.lock.None? || s.lock == Some(id)
    ensures Inv(s.With(id, pc).(lock := lock))
  {
    var s' := s.With(id, pc).(lock := lock);
    forall i | i in s'.threads ensures ThreadOk(s', s'.threads[i]) { if i != id { assert ThreadOk(s, s.threads[i]); } }
    forall i: nat ensures s'.Holds(i) <==> s'.lock == Some(i) {
      assert i != id ==> s'.Holds(i) == s.Holds(i);
    }
  }

  lemma InspectStep(s: State, id: nat)
    requires Inv(s) && Enabled(s, Inspect(id))
    ensures Inv(Look(s, id))
  {
    assert s.Holds(id) && ThreadOk(s, s.threads[id]);
    var j := s.world.journal;
    if s.Stopped() {
      ThreadStep(s, id, Done(false), None);
    } else if j.gap.None? && j.pending == map[] {
      Runs.NoGapExact(j, s.world.log, s.world.lost);
      ThreadStep(s, id, Done(true), None);
    } else {
      JournalStep(s, Runs.TakeMark);
      var marked := s.(world := Runs.Next(s.world, Runs.TakeMark));
      ThreadStep(marked, id, Working(j.TakeMark(), j.gap.Some?), Some(id));
      assert Look(s, id) == marked.With(id, Working(j.TakeMark(), j.gap.Some?)).(lock := Some(id));
    }
  }

  lemma SucceedStep(s: State, id: nat, generation: nat)
    requires Inv(s) && Enabled(s, Succeed(id, generation))
    ensures Inv(Finish(s, id, generation))
  {
    var pc := s.threads[id].pc;
    var op := if pc.reconcile then Runs.Reconcile(pc.mark, generation) else Runs.Commit(pc.mark, generation);
    var s' := Finish(s, id, generation);
    assert s.Holds(id) && ThreadOk(s, s.threads[id]);
    OpGrows(s.world, op);
    assert pc.mark.sequence <= s'.world.journal.checkpoint;
    forall i | i in s'.threads ensures ThreadOk(s', s'.threads[i]) { assert ThreadOk(s, s.threads[i]); }
    forall i: nat ensures s'.Holds(i) <==> s'.lock == Some(i) {
      assert i != id ==> s'.Holds(i) == s.Holds(i);
    }
  }

  lemma StopStepKeeps(s: State, reason: string, now: nat)
    requires Inv(s) && Enabled(s, StopStep(reason, now))
    ensures Inv(Stop(s, reason, now))
  {
    var s' := Stop(s, reason, now);
    if s.stopping.WatcherClosed? {
      JournalStep(s, Runs.Break(reason, now, now));
    } else if s.stopping.GapSet? {
      JournalStep(s, Runs.Save);
    }
    forall i | i in s'.threads ensures ThreadOk(s', s'.threads[i]) {
      assert ThreadOk(s, s.threads[i]);
      assert s.threads[i].pc.Working? ==> s.Holds(i);
    }
    assert forall i: nat :: s'.Holds(i) == s.Holds(i);
  }

  lemma CallStep(s: State, id: nat, kind: Kind)
    requires Inv(s) && id !in s.threads
    ensures Inv(Do(s, Call(id, kind)))
  {
    var s' := Do(s, Call(id, kind));
    forall i | i in s'.threads ensures ThreadOk(s', s'.threads[i]) { if i != id { assert ThreadOk(s, s.threads[i]); } }
    forall i: nat ensures s'.Holds(i) <==> s'.lock == Some(i) { assert s'.Holds(i) == s.Holds(i); }
  }

  lemma StepKeepsInv(s: State, step: Step)
    requires Inv(s) && Enabled(s, step)
    ensures Inv(Do(s, step))
  {
    match step
    case LoopRecord(events, now) => JournalStep(s, Runs.Observe(events, now));
    case LoopGap(reason, at, now) => JournalStep(s, Runs.Break(reason, at, now));
    case Persist => JournalStep(s, Runs.Save);
    case Call(id, kind) => CallStep(s, id, kind);
    case LoopEnd => LoopEndStep(s);
    case CheckStopped(id) =>
      assert ThreadOk(s, s.threads[id]) && !s.Holds(id);
      ThreadStep(s, id, if s.Stopped() then Done(false) else Ready, s.lock);
    case TakeLock(id) =>
      assert ThreadOk(s, s.threads[id]);
      ThreadStep(s, id, Locked, Some(id));
    case MissLock(id) =>
      assert ThreadOk(s, s.threads[id]) && !s.Holds(id);
      ThreadStep(s, id, Done(false), s.lock);
    case Inspect(id) => InspectStep(s, id);
    case Fail(id) =>
      assert ThreadOk(s, s.threads[id]) && s.Holds(id);
      ThreadStep(s, id, Done(false), None);
    case Succeed(id, generation) => SucceedStep(s, id, generation);
    case StopStep(reason, now) => StopStepKeeps(s, reason, now);
  }

  lemma LoopEndStep(s: State)
    requires Inv(s)
    ensures Inv(s.(looping := false))
  {
    var s' := s.(looping := false);
    forall i | i in s'.threads ensures ThreadOk(s', s'.threads[i]) { assert ThreadOk(s, s.threads[i]); }
    assert forall i: nat :: s'.Holds(i) == s.Holds(i);
  }

  lemma {:induction false} RunKeepsInv(s: State, steps: seq<Step>)
    requires Inv(s) && Run(s, steps)
    ensures Inv(Reach(s, steps))
  {
    if steps != [] {
      RunKeepsInv(s, steps[..|steps| - 1]);
      StepKeepsInv(Reach(s, steps[..|steps| - 1]), steps[|steps| - 1]);
    }
  }

  lemma InitialInv(s: State)
    requires Initial(s)
    ensures Inv(s)
  {
  }

  /** A worker over a journal with any history: observations, commits, saves and restarts. */
  lemma StartsOnAnyJournal(id: string, max: nat, now: nat, ops: seq<Runs.Op>)
    requires Runs.AllEnabled(Runs.Start(id, max, now), ops)
    ensures Initial(State(Runs.NextAll(Runs.Start(id, max, now), ops), true, map[], None, NotStopping))
  {
    Runs.RunsKeepInv(Runs.Start(id, max, now), ops);
  }

  // ---------------------------------------------------------------- guarantees

  /** In every interleaving at most one drain is under way, and it is the one holding the lock. */
  lemma OneDrainAtATime(s: State, steps: seq<Step>, a: nat, b: nat)
    requires Initial(s) && Run(s, steps)
    requires a in Reach(s, steps).threads && Reach(s, steps).threads[a].pc.Working?
    requires b in Reach(s, steps).threads && Reach(s, steps).threads[b].pc.Working?
    ensures a == b && Reach(s, steps).lock == Some(a)
  {
    InitialInv(s);
    RunKeepsInv(s, steps);
    assert Reach(s, steps).Holds(a) && Reach(s, steps).Holds(b);
  }

  /**
   Stop quiescence: once stop has returned, no further step of any settle, flush or loop,
   called before or after, changes the journal; its gap is set and stored with it. Nothing is
   being drained.
   */
  lemma {:induction false} StoppedIsQuiet(s: State, steps: seq<Step>, later: seq<Step>)
    requires Initial(s) && Run(s, steps) && Reach(s, steps).stopping.Returned?
    requires Run(Reach(s, steps), later)
    ensures var end := Reach(Reach(s, steps), later);
            && end.world.journal == Reach(s, steps).world.journal
            && end.world.journal.gap.Some?
            && end.world.saved.Some? && end.world.saved.value.0 == end.world.journal
            && end.stopping.Returned?
            && forall id :: id in end.threads ==> !end.threads[id].pc.Working?
  {
    InitialInv(s);
    RunKeepsInv(s, steps);
    RunKeepsInv(Reach(s, steps), later);
    if later != [] {
      var rest := later[..|later| - 1];
      StoppedIsQuiet(s, steps, rest);
      RunKeepsInv(Reach(s, steps), rest);
      QuietStep(Reach(Reach(s, steps), rest), later[|later| - 1]);
    } else {
      NothingWorks(Reach(s, steps));
    }
  }

  lemma NothingWorks(s: State)
    requires Inv(s) && Rank(s.stopping) >= 4
    ensures forall id :: id in s.threads ==> !s.threads[id].pc.Working?
  {
    forall id | id in s.threads ensures !s.threads[id].pc.Working? { assert ThreadOk(s, s.threads[id]); }
  }

  lemma QuietStep(s: State, step: Step)
    requires Inv(s) && s.stopping.Returned? && Enabled(s, step)
    ensures Do(s, step).world.journal == s.world.journal && Do(s, step).stopping.Returned?
    ensures forall id :: id in Do(s, step).threads ==> !Do(s, step).threads[id].pc.Working?
  {
    NothingWorks(s);
    StepKeepsInv(s, step);
    NothingWorks(Do(s, step));
  }

  /**
   A flush that finishes, rather than being refused or failing, has brought the checkpoint to
   everything observed before it was called: it waited for the lock, so the snapshot it acted
   on was taken after the call.
   */
  lemma FlushCatchesUp(s: State, steps: seq<Step>, id: nat)
    requires Initial(s) && Run(s, steps)
    requires id in Reach(s, steps).threads && Reach(s, steps).threads[id].pc == Done(true)
    ensures Reach(s, steps).threads[id].since <= Reach(s, steps).world.journal.checkpoint
  {
    InitialInv(s);
    RunKeepsInv(s, steps);
    assert ThreadOk(Reach(s, steps), Reach(s, steps).threads[id]);
  }

  // ---------------------------------------------------------------- what a drain does

  /** Under the lock: refused once stopped, done when there is nothing to apply, else a snapshot that reconciles exactly when there is a gap. */
  lemma InspectIsExact(s: State, id: nat)
    requires Enabled(s, Inspect(id))
    ensures var j, pc := s.world.journal, Look(s, id).threads[id].pc;
            && (Rank(s.stopping) >= 3 ==> pc == Done(false))
            && (Rank(s.stopping) < 3 && j.gap.None? && j.pending == map[] ==> pc == Done(true))
            && (Rank(s.stopping) < 3 && (j.gap.Some? || j.pending != map[]) ==>
                  pc == Working(CJ.Mark(j.sequence, j.gapSeq), j.gap.Some?) && Look(s, id).lock == s.lock)
            && Look(s, id).world.journal == j
  {
  }

  /**
   A drain that succeeds takes off what its snapshot held and nothing newer. It closes the gap
   exactly when it set out to and nothing broke the record since.
   */
  lemma SuccessIsExact(s: State, id: nat, generation: nat)
    requires Enabled(s, Succeed(id, generation))
    ensures var pc, j, k := s.threads[id].pc, s.world.journal, Finish(s, id, generation).world.journal;
            && (k.gap == if pc.reconcile && j.gapSeq == pc.mark.gapSeq then None else j.gap)
            && (forall p :: p in k.pending <==> p in j.pending && j.pending[p].num > pc.mark.sequence)
            && (forall p :: p in k.pending ==> k.pending[p] == j.pending[p])
            && k.generation == generation && k.gapSeq == j.gapSeq && k.sequence == j.sequence
            && Finish(s, id, generation).threads[id].pc == Done(true) && Finish(s, id, generation).lock.None?
  {
  }

  /** A flush fails only because its drain failed or the worker stopped: it waits for the lock, and is never turned away by another drain. */
  lemma FlushIsNotTurnedAway(s: State, step: Step, id: nat)
    requires Enabled(s, step) && id in s.threads && s.threads[id].kind == Flush && !s.threads[id].pc.Done?
    requires Do(s, step).threads[id].pc == Done(false)
    ensures step == Fail(id) || Rank(s.stopping) >= 3
  {
  }

  lemma Then(s: State, steps: seq<Step>, step: Step)
    requires Run(s, steps) && Enabled(Reach(s, steps), step)
    ensures Run(s, steps + [step]) && Reach(s, steps + [step]) == Do(Reach(s, steps), step)
  {
    assert (steps + [step])[..|steps|] == steps;
  }

  /** The state of a flush that holds the lock on a worker that is not stopping. */
  predicate HasLock(s: State, id: nat) {
    s.stopping.NotStopping? && id in s.threads && s.threads[id].pc == Locked && s.lock == Some(id)
  }

  lemma FlushTakesLock(s: State, steps: seq<Step>, id: nat) returns (all: seq<Step>)
    requires Run(s, steps)
    requires Reach(s, steps).stopping.NotStopping? && Reach(s, steps).lock.None? && id !in Reach(s, steps).threads
    ensures Run(s, all) && HasLock(Reach(s, all), id) && Reach(s, all).world == Reach(s, steps).world
  {
    Then(s, steps, Call(id, Flush));
    all := steps + [Call(id, Flush)];
    Then(s, all, CheckStopped(id));
    all := all + [CheckStopped(id)];
    Then(s, all, TakeLock(id));
    all := all + [TakeLock(id)];
  }

  /** From the lock to the end: nothing to do, or one drain that succeeds. */
  lemma LockedFinishes(r: State, id: nat, generation: nat) returns (more: seq<Step>)
    requires HasLock(r, id) && Runs.Inv(r.world)
    ensures more == [Inspect(id)] || more == [Inspect(id), Succeed(id, generation)]
    ensures Enabled(r, Inspect(id)) && (|more| == 2 ==> Enabled(Look(r, id), Succeed(id, generation)))
    ensures var t := if |more| == 1 then Look(r, id) else Do(Look(r, id), Succeed(id, generation));
            id in t.threads && t.threads[id].pc == Done(true) && t.world.journal.gap.None? && t.world.journal.pending == map[]
  {
    var looked := Look(r, id);
    InspectIsExact(r, id);
    more := [Inspect(id)];
    if looked.threads[id].pc.Working? {
      more := [Inspect(id), Succeed(id, generation)];
      SuccessIsExact(looked, id, generation);
      NothingNewer(r.world.journal, r.world.log, Finish(looked, id, generation).world.journal);
    }
  }

  /**
   Whatever has happened, a flush on a worker that is not stopping, called while no drain is
   under way, can finish, and then nothing is pending and there is no gap.
   */
  lemma FlushCanFinish(s: State, steps: seq<Step>, id: nat, generation: nat) returns (all: seq<Step>)
    requires Initial(s) && Run(s, steps)
    requires Reach(s, steps).stopping.NotStopping? && Reach(s, steps).lock.None? && id !in Reach(s, steps).threads
    ensures Run(s, all) && id in Reach(s, all).threads && Reach(s, all).threads[id].pc == Done(true)
    ensures var j := Reach(s, all).world.journal; j.gap.None? && j.pending == map[]
  {
    InitialInv(s);
    RunKeepsInv(s, steps);
    all := FlushTakesLock(s, steps, id);
    var more := LockedFinishes(Reach(s, all), id, generation);
    Then(s, all, Inspect(id));
    all := all + [Inspect(id)];
    if |more| == 2 {
      Then(s, all, Succeed(id, generation));
      all := all + [Succeed(id, generation)];
    }
  }

  lemma NothingNewer(j: CJ.State, log: seq<CJ.Event>, k: CJ.State)
    requires Runs.Sound(j, log) && forall p :: p in k.pending ==> p in j.pending && j.pending[p].num > j.sequence
    ensures k.pending == map[]
  {
    forall p | p in j.pending ensures j.pending[p].num <= j.sequence { assert Runs.EntryIsLast(log, p, j.pending[p], j.checkpoint); }
    assert k.pending.Keys == {};
  }
}
