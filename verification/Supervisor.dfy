/**
 Which watchers exist (internal/watchsupervisor/supervisor.go): sweeps, wakes, releases and a
 close, each touching `workers`, `starting` and `closed` only under the lock, interleaved
 with the slow work of opening and stopping watchers done outside it.
 */
module Supervisor {
  import opened Text

  type Project = string

  /** The progress of one call of `start`. */
  datatype Pc =
    | Begun                  // its project is in `starting`; no watcher yet
    | Opened(watcher: nat)   // fswatch.Start returned
    | Discarding(watcher: nat)
    | Leaving                // about to run the deferred delete from `starting`

  datatype Start = Start(project: Project, pc: Pc)

  /** What became of a watcher: held by a start, registered for a project, or let go. */
  datatype Fate = Held(id: nat) | Registered(project: Project) | Stopping | Closed

  /**
   `starting` names the start in flight for each project; the source keeps only its keys.
   `watchers` is every watcher ever opened.
   */
  datatype State = State(
    workers: map<Project, nat>, starting: map<Project, nat>, closed: bool,
    starts: map<nat, Start>, watchers: map<nat, Fate>)

  datatype Step =
    | Begin(id: nat, project: Project)     // Wake, or ensure from a sweep
    | Open(id: nat, watcher: nat)
    | GiveUp(id: nat)                      // no watch set, no journal, or no watcher
    | Register(id: nat)
    | Discard(id: nat)
    | Leave(id: nat)
    | Release(project: Project)            // no longer running, or idle
    | Stopped(watcher: nat)
    | Close

  predicate Enabled(s: State, step: Step) {
    match step
    case Begin(id, _) => id !in s.starts
    case Open(id, w) => id in s.starts && s.starts[id].pc.Begun? && w !in s.watchers
    case GiveUp(id) => id in s.starts && s.starts[id].pc.Begun?
    case Register(id) => id in s.starts && s.starts[id].pc.Opened?
    case Discard(id) => id in s.starts && s.starts[id].pc.Discarding?
    case Leave(id) => id in s.starts && s.starts[id].pc.Leaving?
    case Release(_) => true
    case Stopped(w) => w in s.watchers && s.watchers[w].Stopping?
    case Close => true
  }

  function To(s: State, id: nat, pc: Pc): State
    requires id in s.starts
  {
    s.(starts := s.starts[id := s.starts[id].(pc := pc)])
  }

  /** The section of Wake and ensure under the lock. */
  function Began(s: State, id: nat, project: Project): State {
    if s.closed || project in s.workers || project in s.starting then s
    else s.(starting := s.starting[project := id], starts := s.starts[id := Start(project, Begun)])
  }

  predicate Raced(s: State, id: nat)
    requires id in s.starts
  {
    !s.closed && s.starts[id].project in s.workers
  }

  /** The section of start under the lock, once a watcher is open. */
  function Registering(s: State, id: nat): State
    requires id in s.starts && s.starts[id].pc.Opened?
  {
    var w := s.starts[id].pc.watcher;
    if s.closed || Raced(s, id) then To(s, id, Discarding(w))
    else To(s, id, Leaving).(workers := s.workers[s.starts[id].project := w], watchers := s.watchers[w := Registered(s.starts[id].project)])
  }

  function Released(s: State, project: Project): State {
    if project in s.workers then
      s.(workers := s.workers - {project}, watchers := s.watchers[s.workers[project] := Stopping])
    else s
  }

  function ClosedDown(s: State): State {
    if s.closed then s
    else
      s.(closed := true, workers := map[],
         watchers := map w | w in s.watchers :: if w in s.workers.Values then Stopping else s.watchers[w])
  }

  function Do(s: State, step: Step): State
    requires Enabled(s, step)
  {
    match step
    case Begin(id, project) => Began(s, id, project)
    case Open(id, w) => To(s, id, Opened(w)).(watchers := s.watchers[w := Held(id)])
    case GiveUp(id) => To(s, id, Leaving)
    case Register(id) => Registering(s, id)
    case Discard(id) => To(s, id, Leaving).(watchers := s.watchers[s.starts[id].pc.watcher := Closed])
    case Leave(id) => s.(starting := s.starting - {s.starts[id].project}, starts := s.starts - {id})
    case Release(project) => Released(s, project)
    case Stopped(w) => s.(watchers := s.watchers[w := Closed])
    case Close => ClosedDown(s)
  }

  const EMPTY := State(map[], map[], false, map[], map[])

  predicate Run(steps: seq<Step>)
    decreases |steps|, 0
  {
    steps == [] || (Run(steps[..|steps| - 1]) && Enabled(Reach(steps[..|steps| - 1]), steps[|steps| - 1]))
  }

  function Reach(steps: seq<Step>): State
    requires Run(steps)
    decreases |steps|, 1
  {
    if steps == [] then EMPTY else Do(Reach(steps[..|steps| - 1]), steps[|steps| - 1])
  }

  // ---------------------------------------------------------------- the invariant

  /** The watcher a start holds but has not registered. */
  predicate HeldBy(t: Start, w: nat) { (t.pc.Opened? || t.pc.Discarding?) && t.pc.watcher == w }

  ghost predicate StartsOk(s: State) {
    && (forall i :: i in s.starts ==> StartOk(s, i))
    && (forall p :: p in s.starting ==> s.starting[p] in s.starts && s.starts[s.starting[p]].project == p)
  }

  predicate StartOk(s: State, i: nat)
    requires i in s.starts
  {
    var t := s.starts[i];
    && t.project in s.starting && s.starting[t.project] == i
    && (t.pc.Begun? || t.pc.Opened? ==> t.project !in s.workers)
    && (t.pc.Discarding? ==> s.closed)
    && (t.pc.Opened? || t.pc.Discarding? ==> t.pc.watcher in s.watchers && s.watchers[t.pc.watcher] == Held(i))
  }

  predicate WatcherOk(s: State, w: nat)
    requires w in s.watchers
  {
    match s.watchers[w]
    case Held(i) => i in s.starts && HeldBy(s.starts[i], w)
    case Registered(p) => p in s.workers && s.workers[p] == w
    case _ => true
  }

  ghost predicate Inv(s: State) {
    && StartsOk(s)
    && (forall w :: w in s.watchers ==> WatcherOk(s, w))
    && (forall p :: p in s.workers ==> s.workers[p] in s.watchers && s.watchers[s.workers[p]] == Registered(p))
    && (s.closed ==> s.workers == map[])
  }

  /** Moving one start along: the others, and the watchers it does not hold, are untouched. */
  lemma MoveKeeps(s: State, s': State, id: nat, pc: Pc)
    requires Inv(s) && id in s.starts
    requires s' == s.(starts := s.starts[id := s.starts[id].(pc := pc)], watchers := s'.watchers, workers := s'.workers)
    requires StartOk(s', id)
    requires forall w :: w in s.watchers && !HeldBy(s.starts[id], w) ==> w in s'.watchers && s'.watchers[w] == s.watchers[w]
    requires forall w :: w in s'.watchers && (w !in s.watchers || HeldBy(s.starts[id], w)) ==> WatcherOk(s', w)
    requires forall p :: p in s'.workers ==>
               || (p in s.workers && s'.workers[p] == s.workers[p])
               || (p == s.starts[id].project && s'.workers[p] in s'.watchers && s'.watchers[s'.workers[p]] == Registered(p))
    requires forall p :: p in s.workers ==> p in s'.workers && s'.workers[p] == s.workers[p]
    requires s'.closed ==> s'.workers == map[]
    ensures Inv(s')
  {
    forall i | i in s'.starts ensures StartOk(s', i) {
      if i != id { assert StartOk(s, i) && StartOk(s, id); }
    }
    forall w | w in s'.watchers ensures WatcherOk(s', w) {
      if w in s.watchers && !HeldBy(s.starts[id], w) { assert WatcherOk(s, w); }
    }
    forall p | p in s'.workers ensures s'.workers[p] in s'.watchers && s'.watchers[s'.workers[p]] == Registered(p) {
      if p in s.workers { assert StartOk(s, id); }
    }
  }

  lemma BeginKeeps(s: State, id: nat, project: Project)
    requires Inv(s) && id !in s.starts
    ensures Inv(Began(s, id, project))
  {
    var s' := Began(s, id, project);
    if s' != s {
      forall i | i in s'.starts ensures StartOk(s', i) { if i != id { assert StartOk(s, i); } }
      forall w | w in s'.watchers ensures WatcherOk(s', w) { assert WatcherOk(s, w); }
    }
  }

  lemma RegisterKeeps(s: State, id: nat)
    requires Inv(s) && Enabled(s, Register(id))
    ensures Inv(Registering(s, id))
  {
    assert StartOk(s, id);
    var s' := Registering(s, id);
    MoveKeeps(s, s', id, s'.starts[id].pc);
  }

  lemma LeaveKeeps(s: State, id: nat)
    requires Inv(s) && Enabled(s, Leave(id))
    ensures Inv(Do(s, Leave(id)))
  {
    var s' := Do(s, Leave(id));
    forall i | i in s'.starts ensures StartOk(s', i) { assert StartOk(s, i) && StartOk(s, id); }
    forall w | w in s'.watchers ensures WatcherOk(s', w) { assert WatcherOk(s, w); }
  }

  lemma ReleaseKeeps(s: State, project: Project)
    requires Inv(s)
    ensures Inv(Released(s, project))
  {
    var s' := Released(s, project);
    forall i | i in s'.starts ensures StartOk(s', i) { assert StartOk(s, i); }
    forall w | w in s'.watchers ensures WatcherOk(s', w) { assert WatcherOk(s, w); }
  }

  lemma CloseKeeps(s: State)
    requires Inv(s)
    ensures Inv(ClosedDown(s))
  {
    var s' := ClosedDown(s);
    forall i | i in s'.starts ensures StartOk(s', i) { assert StartOk(s, i); }
    forall w | w in s'.watchers ensures WatcherOk(s', w) { assert WatcherOk(s, w); }
  }

  lemma StoppedKeeps(s: State, w: nat)
    requires Inv(s) && Enabled(s, Stopped(w))
    ensures Inv(Do(s, Stopped(w)))
  {
    var s' := Do(s, Stopped(w));
    forall i | i in s'.starts ensures StartOk(s', i) { assert StartOk(s, i); }
    forall x | x in s'.watchers ensures WatcherOk(s', x) { assert WatcherOk(s, x); }
  }

  lemma StepKeepsInv(s: State, step: Step)
    requires Inv(s) && Enabled(s, step)
    ensures Inv(Do(s, step))
  {
    match step
    case Begin(id, project) => BeginKeeps(s, id, project);
    case Open(id, w) => assert StartOk(s, id); MoveKeeps(s, Do(s, step), id, Opened(w));
    case GiveUp(id) => assert StartOk(s, id); MoveKeeps(s, Do(s, step), id, Leaving);
    case Register(id) => RegisterKeeps(s, id);
    case Discard(id) => assert StartOk(s, id); MoveKeeps(s, Do(s, step), id, Leaving);
    case Leave(id) => LeaveKeeps(s, id);
    case Release(project) => ReleaseKeeps(s, project);
    case Stopped(w) => StoppedKeeps(s, w);
    case Close => CloseKeeps(s);
  }

  lemma {:induction false} RunKeepsInv(steps: seq<Step>)
    requires Run(steps)
    ensures Inv(Reach(steps))
  {
    if steps != [] {
      RunKeepsInv(steps[..|steps| - 1]);
      StepKeepsInv(Reach(steps[..|steps| - 1]), steps[|steps| - 1]);
    }
  }

  // ---------------------------------------------------------------- guarantees

  /** At most one start per project is in flight, and the branch for a raced start is never taken. */
  lemma OneStartPerProject(steps: seq<Step>, i: nat, j: nat)
    requires Run(steps) && i in Reach(steps).starts && j in Reach(steps).starts
    ensures Reach(steps).starts[i].project == Reach(steps).starts[j].project ==> i == j
    ensures Reach(steps).starts[i].pc.Opened? ==> !Raced(Reach(steps), i)
  {
    RunKeepsInv(steps);
    assert StartOk(Reach(steps), i) && StartOk(Reach(steps), j);
  }

  /**
   No watcher is leaked or shared: each one ever opened is held by exactly one start, or is
   the registered worker of exactly one project, or is being stopped, or is closed.
   */
  lemma EveryWatcherIsAccountedFor(steps: seq<Step>, w: nat)
    requires Run(steps) && w in Reach(steps).watchers
    ensures var s := Reach(steps);
            && (forall i :: i in s.starts && HeldBy(s.starts[i], w) ==> s.watchers[w] == Held(i))
            && (forall p :: p in s.workers && s.workers[p] == w ==> s.watchers[w] == Registered(p))
            && (s.watchers[w].Held? ==> s.watchers[w].id in s.starts && HeldBy(s.starts[s.watchers[w].id], w))
            && (s.watchers[w].Registered? ==> s.watchers[w].project in s.workers && s.workers[s.watchers[w].project] == w)
  {
    RunKeepsInv(steps);
    var s := Reach(steps);
    assert WatcherOk(s, w);
    forall i | i in s.starts && HeldBy(s.starts[i], w) ensures s.watchers[w] == Held(i) { assert StartOk(s, i); }
  }

  /** So when nothing is in flight, every watcher ever opened is registered or closed. */
  lemma SettledMeansRegisteredOrClosed(steps: seq<Step>, w: nat)
    requires Run(steps) && Reach(steps).starts == map[] && w in Reach(steps).watchers
    requires !Reach(steps).watchers[w].Stopping?
    ensures Reach(steps).watchers[w].Closed? || (Reach(steps).watchers[w].Registered? && !Reach(steps).closed)
  {
    RunKeepsInv(steps);
    assert WatcherOk(Reach(steps), w);
  }

  /** After a close nothing is registered again, whatever starts were in flight. */
  lemma {:induction false} NothingAfterClose(steps: seq<Step>, later: seq<Step>)
    requires Run(steps + later) && Run(steps) && Reach(steps).closed
    ensures Reach(steps + later).closed && Reach(steps + later).workers == map[]
  {
    RunKeepsInv(steps + later);
    if later == [] {
      assert steps + later == steps;
    } else {
      var all, rest := steps + later, later[..|later| - 1];
      assert all[..|all| - 1] == steps + rest;
      NothingAfterClose(steps, rest);
    }
  }

  // ---------------------------------------------------------------- everything comes to an end

  lemma Then(steps: seq<Step>, step: Step)
    requires Run(steps) && Enabled(Reach(steps), step)
    ensures Run(steps + [step]) && Reach(steps + [step]) == Do(Reach(steps), step)
  {
    assert (steps + [step])[..|steps|] == steps;
  }

  /** A start that has its watcher, or gave up on it, is a step or two from leaving. */
  lemma LeaveStart(steps: seq<Step>, id: nat) returns (all: seq<Step>)
    requires Run(steps) && id in Reach(steps).starts && (Reach(steps).starts[id].pc.Discarding? || Reach(steps).starts[id].pc.Leaving?)
    ensures Run(all) && steps <= all && Reach(all).starts == Reach(steps).starts - {id}
  {
    all := steps;
    if Reach(steps).starts[id].pc.Discarding? {
      Then(all, Discard(id));
      all := all + [Discard(id)];
    }
    Then(all, Leave(id));
    all := all + [Leave(id)];
  }

  lemma FinishStart(steps: seq<Step>, id: nat) returns (all: seq<Step>)
    requires Run(steps) && id in Reach(steps).starts
    ensures Run(all) && steps <= all && Reach(all).starts == Reach(steps).starts - {id}
  {
    var s, step := Reach(steps), if Reach(steps).starts[id].pc.Begun? then GiveUp(id) else Register(id);
    all := steps;
    if s.starts[id].pc.Begun? || s.starts[id].pc.Opened? {
      Then(steps, step);
      all := steps + [step];
      assert Reach(all).starts - {id} == s.starts - {id};
    }
    all := LeaveStart(all, id);
  }

  lemma {:induction false} FinishStarts(steps: seq<Step>) returns (all: seq<Step>)
    requires Run(steps)
    ensures Run(all) && steps <= all && Reach(all).starts == map[]
    decreases |Reach(steps).starts|
  {
    all := steps;
    if Reach(steps).starts != map[] {
      var id :| id in Reach(steps).starts;
      all := FinishStart(steps, id);
      assert Reach(steps).starts.Keys == Reach(all).starts.Keys + {id};
      all := FinishStarts(all);
    }
  }

  function BeingStopped(s: State): set<nat> { set w | w in s.watchers && s.watchers[w].Stopping? }

  lemma {:induction false} FinishStops(steps: seq<Step>) returns (all: seq<Step>)
    requires Run(steps) && Reach(steps).starts == map[]
    ensures Run(all) && steps <= all && Reach(all).starts == map[] && BeingStopped(Reach(all)) == {}
    decreases |BeingStopped(Reach(steps))|
  {
    all := steps;
    if BeingStopped(Reach(steps)) != {} {
      var w :| w in BeingStopped(Reach(steps));
      Then(steps, Stopped(w));
      all := steps + [Stopped(w)];
      assert BeingStopped(Reach(steps)) == BeingStopped(Reach(all)) + {w};
      all := FinishStops(all);
    }
  }

  /** Every run can be carried on until nothing is in flight, and then every watcher is registered or closed. */
  lemma EverythingEnds(steps: seq<Step>) returns (all: seq<Step>)
    requires Run(steps)
    ensures Run(all) && steps <= all && Reach(all).starts == map[] && Reach(all).starting == map[]
    ensures forall w :: w in Reach(all).watchers ==>
              Reach(all).watchers[w].Closed? || (Reach(all).watchers[w].Registered? && !Reach(all).closed)
  {
    all := FinishStarts(steps);
    all := FinishStops(all);
    RunKeepsInv(all);
    forall w | w in Reach(all).watchers
      ensures Reach(all).watchers[w].Closed? || (Reach(all).watchers[w].Registered? && !Reach(all).closed)
    {
      assert w !in BeingStopped(Reach(all));
      SettledMeansRegisteredOrClosed(all, w);
    }
    assert Reach(all).starting.Keys == {};
  }

  // ---------------------------------------------------------------- the class

  /** The sections the source runs under its mutex. */
  class Supervisor {
    var workers: map<Project, nat>
    var starting: set<Project>
    var closed: bool

    constructor ()
      ensures workers == map[] && starting == {} && !closed
    {
      workers, starting, closed := map[], {}, false;
    }

    /** Reports whether the caller should go on to `start`. */
    method TryBegin(project: Project) returns (begin: bool)
      modifies this`starting
      ensures begin <==> !closed && project !in workers && project !in old(starting)
      ensures forall s: State, id: nat ::
                s.workers == workers && s.starting.Keys == old(starting) && s.closed == closed && id !in s.starts ==>
                Began(s, id, project).starting.Keys == starting && (id in Began(s, id, project).starts <==> begin)
    {
      if closed || project in workers || project in starting {
        return false;
      }
      starting := starting + {project};
      return true;
    }

    /** Reports whether the watcher was registered; when it was not, the caller closes it. */
    method TryRegister(project: Project, watcher: nat) returns (registered: bool)
      modifies this`workers
      ensures registered <==> !closed && project !in old(workers)
      ensures workers == if registered then old(workers)[project := watcher] else old(workers)
      ensures forall s: State, id: nat ::
                s.workers == old(workers) && s.closed == closed && id in s.starts && s.starts[id] == Start(project, Opened(watcher)) ==>
                Registering(s, id).workers == workers && (Registering(s, id).starts[id].pc.Leaving? <==> registered)
    {
      if closed {
        return false;
      }
      if project in workers {
        return false;
      }
      workers := workers[project := watcher];
      return true;
    }

    method Leave(project: Project)
      modifies this`starting
      ensures starting == old(starting) - {project}
    {
      starting := starting - {project};
    }

    method Release(project: Project) returns (stopping: Option<nat>)
      modifies this`workers
      ensures workers == old(workers) - {project}
      ensures stopping == if project in old(workers) then Some(old(workers)[project]) else None
      ensures forall s: State :: s.workers == old(workers) ==>
                && Released(s, project).workers == workers
                && Released(s, project).watchers == (if stopping.Some? then s.watchers[stopping.value := Stopping] else s.watchers)
    {
      stopping := if project in workers then Some(workers[project]) else None;
      workers := workers - {project};
    }

    method Close() returns (stopping: set<nat>)
      modifies this`workers, this`closed
      ensures closed && stopping == (if old(closed) then {} else old(workers).Values)
      ensures workers == if old(closed) then old(workers) else map[]
      ensures forall s: State :: s.workers == old(workers) && s.closed == old(closed) ==>
                && ClosedDown(s).workers == workers && ClosedDown(s).closed
                && ClosedDown(s).watchers.Keys == s.watchers.Keys
                && (forall w :: w in s.watchers ==> ClosedDown(s).watchers[w] == if w in stopping then Stopping else s.watchers[w])
    {
      if closed {
        return {};
      }
      closed := true;
      stopping := workers.Values;
      workers := map[];
    }
  }
}
