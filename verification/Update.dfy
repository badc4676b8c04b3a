/**
 Moving every running project to a new release, and back (cmd/lctk/update.go:154-168, 196-227, 278-308).

 Stack operations are foreign: each may fail, and a failed one leaves its project in any state.
 */
module Update {
  import opened Text

  /** What runs for a project and which schema its database has. */
  datatype Project = Project(run: Option<string>, schema: string)

  datatype Op = StopPrevious | StartTarget | StopTarget | RestoreSchema | StartPrevious

  /** The state a failing operation leaves behind; None when it succeeds. */
  type Env = (Op, string) -> Option<Project>

  datatype Releases = Releases(previous: string, target: string)

  type World = map<string, Project>

  /** A project after one successful operation. */
  function Effect(op: Op, p: Project, r: Releases): Project {
    match op
    case StopPrevious => p.(run := None)
    case StopTarget => p.(run := None)
    case StartTarget => Project(Some(r.target), r.target)
    case RestoreSchema => p.(schema := r.previous)
    case StartPrevious => p.(run := Some(r.previous))
  }

  function One(env: Env, r: Releases, op: Op, id: string, p: Project): Project {
    match env(op, id) case Some(broken) => broken case None => Effect(op, p, r)
  }

  function Do(env: Env, r: Releases, w: World, op: Op, id: string): World {
    if id in w then w[id := One(env, r, op, id, w[id])] else w
  }

  // ---------------------------------------------------------------- one project at a time

  /** Which operation on the project stopped the switch, if any. */
  function SwitchFailure(env: Env, id: string): Option<Op> {
    if env(StopPrevious, id).Some? then Some(StopPrevious)
    else if env(StartTarget, id).Some? then Some(StartTarget)
    else None
  }

  function SwitchOne(env: Env, r: Releases, w: World, id: string): World {
    var stopped := Do(env, r, w, StopPrevious, id);
    if env(StopPrevious, id).Some? then stopped else Do(env, r, stopped, StartTarget, id)
  }

  /** Every restore operation on the project succeeds. */
  predicate Restorable(env: Env, id: string) {
    env(StopTarget, id).None? && env(RestoreSchema, id).None? && env(StartPrevious, id).None?
  }

  function RestoreOne(env: Env, r: Releases, w: World, id: string): World {
    var stopped := Do(env, r, w, StopTarget, id);
    if env(StopTarget, id).Some? then stopped
    else
      var restored := Do(env, r, stopped, RestoreSchema, id);
      if env(RestoreSchema, id).Some? then restored else Do(env, r, restored, StartPrevious, id)
  }

  // ---------------------------------------------------------------- all projects

  datatype Switched = Switched(world: World, migrated: seq<string>, failure: Option<Op>)

  /** Projects in order, until one operation fails. */
  function Switch(env: Env, r: Releases, w: World, ids: seq<string>): Switched
    decreases |ids|
  {
    if |ids| == 0 then Switched(w, [], None)
    else
      var next := SwitchOne(env, r, w, ids[0]);
      match SwitchFailure(env, ids[0])
      case Some(StopPrevious) => Switched(next, [], Some(StopPrevious))
      case Some(op) => Switched(next, [ids[0]], Some(op))
      case None =>
        var rest := Switch(env, r, next, ids[1..]);
        rest.(migrated := [ids[0]] + rest.migrated)
  }

  datatype Restored = Restored(world: World, failures: seq<string>)

  /** A result with earlier failures in front of its own. */
  function After(failures: seq<string>, rest: Restored): Restored { rest.(failures := failures + rest.failures) }

  lemma AfterOneMore(failures: seq<string>, id: string, rest: Restored)
    ensures After(failures, After([id], rest)) == After(failures + [id], rest)
  {
    assert failures + ([id] + rest.failures) == (failures + [id]) + rest.failures;
  }

  lemma AfterNone(rest: Restored)
    ensures After([], rest) == rest
  {
    assert [] + rest.failures == rest.failures;
  }

  /** Projects from the last to the first, every one tried; the failing ones listed. */
  function Restore(env: Env, r: Releases, w: World, ids: seq<string>): Restored
    decreases |ids|
  {
    if |ids| == 0 then Restored(w, [])
    else
      var id := ids[|ids| - 1];
      var rest := Restore(env, r, RestoreOne(env, r, w, id), ids[..|ids| - 1]);
      if Restorable(env, id) then rest else After([id], rest)
  }

  datatype Cause = ImageNotInstalled | SwitchFailed(op: Op) | HostNotInstalled

  datatype Outcome = Updated | Failed(cause: Cause, failures: seq<string>)

  /** The apply part of an update. */
  function Apply(env: Env, r: Releases, w: World, running: seq<string>, image: bool, host: bool): (World, Outcome) {
    if !image then (w, Failed(ImageNotInstalled, []))
    else
      var s := Switch(env, r, w, running);
      if s.failure.None? && host then (s.world, Updated)
      else
        var back := Restore(env, r, s.world, s.migrated);
        (back.world, Failed(if s.failure.Some? then SwitchFailed(s.failure.value) else HostNotInstalled, back.failures))
  }

  // ---------------------------------------------------------------- rolling back

  /** One operation on every project of a list; the failing ones listed. */
  function Sweep(env: Env, r: Releases, w: World, op: Op, ids: seq<string>): Restored
    decreases |ids|
  {
    if |ids| == 0 then Restored(w, [])
    else
      var rest := Sweep(env, r, Do(env, r, w, op, ids[0]), op, ids[1..]);
      if env(op, ids[0]).None? then rest else After([ids[0]], rest)
  }

  predicate Among(id: string, ids: seq<string>) { exists i :: 0 <= i < |ids| && ids[i] == id }

  /** The registered projects that were running, in registry order. */
  function Running(projects: seq<string>, running: seq<string>): seq<string> {
    if |projects| == 0 then []
    else (if Among(projects[0], running) then [projects[0]] else []) + Running(projects[1..], running)
  }

  /** Stop all, then restore every schema, then restart: each phase only if the one before it was clean. */
  function RollbackAll(env: Env, r: Releases, w: World, projects: seq<string>, running: seq<string>): Restored {
    var stopped := Sweep(env, r, w, StopTarget, running);
    if |stopped.failures| != 0 then stopped
    else
      var restored := Sweep(env, r, stopped.world, RestoreSchema, projects);
      if |restored.failures| != 0 then restored
      else Sweep(env, r, restored.world, StartPrevious, Running(projects, running))
  }

  lemma RestoreStep(env: Env, r: Releases, w: World, ids: seq<string>, i: nat)
    requires i < |ids|
    ensures var rest := Restore(env, r, RestoreOne(env, r, w, ids[i]), ids[..i]);
            Restore(env, r, w, ids[..i + 1]) == if Restorable(env, ids[i]) then rest else After([ids[i]], rest)
  {
    assert ids[..i + 1][..i] == ids[..i] && ids[..i + 1][i] == ids[i];
  }

  lemma SweepStep(env: Env, r: Releases, w: World, op: Op, ids: seq<string>, i: nat)
    requires i < |ids|
    ensures var rest := Sweep(env, r, Do(env, r, w, op, ids[i]), op, ids[i + 1..]);
            Sweep(env, r, w, op, ids[i..]) == if env(op, ids[i]).None? then rest else After([ids[i]], rest)
  {
    assert ids[i..][1..] == ids[i + 1..] && ids[i..][0] == ids[i];
  }

  // ---------------------------------------------------------------- the orchestration itself

  class Fleet {
    var world: World
    const env: Env
    const releases: Releases

    constructor (w: World, env: Env, releases: Releases)
      ensures world == w && this.env == env && this.releases == releases
    {
      world := w;
      this.env := env;
      this.releases := releases;
    }

    /** One foreign call. */
    method Perform(op: Op, id: string) returns (ok: bool)
      modifies this
      ensures world == Do(env, releases, old(world), op, id)
      ensures ok == env(op, id).None?
    {
      ok := env(op, id).None?;
      if id in world {
        world := world[id := One(env, releases, op, id, world[id])];
      }
    }

    method SwitchRunningProjects(ids: seq<string>) returns (migrated: seq<string>, failure: Option<Op>)
      modifies this
      ensures Switched(world, migrated, failure) == Switch(env, releases, old(world), ids)
    {
      migrated := [];
      ghost var all := Switch(env, releases, world, ids);
      for i := 0 to |ids|
        invariant var rest := Switch(env, releases, world, ids[i..]);
                  all == rest.(migrated := migrated + rest.migrated)
      {
        assert ids[i..][0] == ids[i] && ids[i..][1..] == ids[i + 1..];
        var stopped := Perform(StopPrevious, ids[i]);
        if !stopped {
          return migrated, Some(StopPrevious);
        }
        migrated := migrated + [ids[i]];
        var started := Perform(StartTarget, ids[i]);
        if !started {
          return migrated, Some(StartTarget);
        }
      }
      return migrated, None;
    }

    /** The body of the restore loop for one project. */
    method RestoreProject(id: string) returns (ok: bool)
      modifies this
      ensures world == RestoreOne(env, releases, old(world), id)
      ensures ok == Restorable(env, id)
    {
      ok := Perform(StopTarget, id);
      if !ok {
        return;
      }
      ok := Perform(RestoreSchema, id);
      if !ok {
        return;
      }
      ok := Perform(StartPrevious, id);
    }

    method RestoreProjects(ids: seq<string>) returns (failures: seq<string>)
      modifies this
      ensures Restored(world, failures) == Restore(env, releases, old(world), ids)
    {
      failures := [];
      ghost var all := Restore(env, releases, world, ids);
      var index := |ids|;
      assert ids[..index] == ids;
      AfterNone(all);
      while index > 0
        invariant 0 <= index <= |ids|
        invariant all == After(failures, Restore(env, releases, world, ids[..index]))
      {
        index := index - 1;
        RestoreStep(env, releases, world, ids, index);
        var ok := RestoreProject(ids[index]);
        if !ok {
          AfterOneMore(failures, ids[index], Restore(env, releases, world, ids[..index]));
          failures := failures + [ids[index]];
        }
      }
    }

    method ApplyUpdate(running: seq<string>, image: bool, host: bool) returns (outcome: Outcome)
      modifies this
      ensures (world, outcome) == Apply(env, releases, old(world), running, image, host)
    {
      if !image {
        return Failed(ImageNotInstalled, []);
      }
      var migrated, failure := SwitchRunningProjects(running);
      if failure.Some? {
        var failures := RestoreProjects(migrated);
        return Failed(SwitchFailed(failure.value), failures);
      }
      if !host {
        var failures := RestoreProjects(migrated);
        return Failed(HostNotInstalled, failures);
      }
      return Updated;
    }

    /** One pass of the same operation over a list, every project tried. */
    method Pass(op: Op, ids: seq<string>) returns (failures: seq<string>)
      modifies this
      ensures Restored(world, failures) == Sweep(env, releases, old(world), op, ids)
    {
      failures := [];
      ghost var all := Sweep(env, releases, world, op, ids);
      AfterNone(all);
      for i := 0 to |ids|
        invariant all == After(failures, Sweep(env, releases, world, op, ids[i..]))
      {
        SweepStep(env, releases, world, op, ids, i);
        var ok := Perform(op, ids[i]);
        if !ok {
          AfterOneMore(failures, ids[i], Sweep(env, releases, world, op, ids[i + 1..]));
          failures := failures + [ids[i]];
        }
      }
    }

    method RollbackRegisteredProjects(projects: seq<string>, running: seq<string>) returns (failures: seq<string>)
      modifies this
      ensures Restored(world, failures) == RollbackAll(env, releases, old(world), projects, running)
    {
      failures := Pass(StopTarget, running);
      if |failures| != 0 {
        return;
      }
      failures := Pass(RestoreSchema, projects);
      if |failures| != 0 {
        return;
      }
      var restart: seq<string> := [];
      for i := 0 to |projects|
        invariant restart + Running(projects[i..], running) == Running(projects, running)
      {
        assert projects[i..][0] == projects[i] && projects[i..][1..] == projects[i + 1..];
        if Among(projects[i], running) {
          restart := restart + [projects[i]];
        }
      }
      assert restart == Running(projects, running);
      failures := Pass(StartPrevious, restart);
    }
  }

  // ---------------------------------------------------------------- what a switch leaves

  predicate Distinct(ids: seq<string>) { forall i, j :: 0 <= i < j < |ids| ==> ids[i] != ids[j] }

  /** The project is in the same state in both worlds. */
  predicate Same(w: World, v: World, id: string) { (id in w <==> id in v) && (id in w ==> w[id] == v[id]) }

  predicate RunsAt(w: World, id: string, version: string) { id in w && w[id] == Project(Some(version), version) }

  lemma {:induction false} SwitchUntouched(env: Env, r: Releases, w: World, ids: seq<string>, id: string)
    requires !Among(id, ids)
    ensures Same(w, Switch(env, r, w, ids).world, id)
    decreases |ids|
  {
    if |ids| > 0 {
      assert ids[0] != id;
      forall i | 0 <= i < |ids[1..]| ensures ids[1..][i] != id { assert ids[1..][i] == ids[i + 1]; }
      SwitchUntouched(env, r, SwitchOne(env, r, w, ids[0]), ids[1..], id);
    }
  }

  lemma {:induction false} MigratedIsPrefix(env: Env, r: Releases, w: World, ids: seq<string>)
    ensures var s := Switch(env, r, w, ids);
            && s.migrated <= ids
            && (s.failure.None? ==> s.migrated == ids)
            && (s.failure.Some? ==>
                if s.failure.value == StopPrevious
                then |s.migrated| < |ids| && env(StopPrevious, ids[|s.migrated|]).Some?
                else s.failure.value == StartTarget && |s.migrated| > 0 && env(StartTarget, s.migrated[|s.migrated| - 1]).Some?)
    decreases |ids|
  {
    if |ids| > 0 && SwitchFailure(env, ids[0]).None? {
      MigratedIsPrefix(env, r, SwitchOne(env, r, w, ids[0]), ids[1..]);
      var rest := Switch(env, r, SwitchOne(env, r, w, ids[0]), ids[1..]);
      assert [ids[0]] + ids[1..] == ids;
      assert rest.migrated == ids[1..][..|rest.migrated|];
    }
  }

  lemma DistinctTail(ids: seq<string>)
    requires Distinct(ids) && |ids| > 0
    ensures Distinct(ids[1..]) && !Among(ids[0], ids[1..])
  {
    assert forall i :: 0 <= i < |ids[1..]| ==> ids[1..][i] == ids[i + 1];
  }

  lemma SwitchOneRuns(env: Env, r: Releases, w: World, id: string)
    requires id in w && SwitchFailure(env, id).None?
    ensures RunsAt(SwitchOne(env, r, w, id), id, r.target)
  {
  }

  /** Every project that got through runs the target; every one not reached is as it was. */
  lemma {:induction false} SwitchAt(env: Env, r: Releases, w: World, ids: seq<string>, k: nat)
    requires Distinct(ids) && k < |ids| && ids[k] in w
    ensures var s := Switch(env, r, w, ids);
            && (k < |s.migrated| && (s.failure == Some(StartTarget) ==> k < |s.migrated| - 1)
                ==> RunsAt(s.world, ids[k], r.target))
            && (k >= |s.migrated| && !(s.failure == Some(StopPrevious) && k == |s.migrated|)
                ==> Same(w, s.world, ids[k]))
            && ids[k] in s.world
    decreases |ids|
  {
    var next := SwitchOne(env, r, w, ids[0]);
    DistinctTail(ids);
    if SwitchFailure(env, ids[0]).None? {
      if k == 0 {
        SwitchOneRuns(env, r, w, ids[0]);
        SwitchUntouched(env, r, next, ids[1..], ids[0]);
      } else {
        SwitchAt(env, r, next, ids[1..], k - 1);
      }
      MigratedIsPrefix(env, r, next, ids[1..]);
    }
  }

  // ---------------------------------------------------------------- what a restore leaves

  lemma {:induction false} RestoreUntouched(env: Env, r: Releases, w: World, ids: seq<string>, id: string)
    requires !Among(id, ids)
    ensures Same(w, Restore(env, r, w, ids).world, id)
    decreases |ids|
  {
    if |ids| > 0 {
      var n := |ids| - 1;
      assert ids[n] != id;
      forall i | 0 <= i < n ensures ids[..n][i] != id { assert ids[..n][i] == ids[i]; }
      RestoreUntouched(env, r, RestoreOne(env, r, w, ids[n]), ids[..n], id);
    }
  }

  lemma DistinctInit(ids: seq<string>)
    requires Distinct(ids) && |ids| > 0
    ensures Distinct(ids[..|ids| - 1]) && !Among(ids[|ids| - 1], ids[..|ids| - 1])
  {
  }

  lemma RestoreOneRuns(env: Env, r: Releases, w: World, id: string)
    requires id in w && Restorable(env, id)
    ensures RunsAt(RestoreOne(env, r, w, id), id, r.previous)
  {
  }

  /** A project whose restore operations all succeed runs the previous release on its schema. */
  lemma {:induction false} RestoreAt(env: Env, r: Releases, w: World, ids: seq<string>, k: nat)
    requires Distinct(ids) && k < |ids| && ids[k] in w && Restorable(env, ids[k])
    ensures RunsAt(Restore(env, r, w, ids).world, ids[k], r.previous)
    decreases |ids|
  {
    var n := |ids| - 1;
    var next := RestoreOne(env, r, w, ids[n]);
    DistinctInit(ids);
    if k == n {
      RestoreOneRuns(env, r, w, ids[n]);
      RestoreUntouched(env, r, next, ids[..n], ids[n]);
    } else {
      RestoreAt(env, r, next, ids[..n], k);
    }
  }

  /** One failure per project that could not be restored, and none for the others. */
  lemma {:induction false} RestoreFailures(env: Env, r: Releases, w: World, ids: seq<string>, id: string)
    ensures Among(id, Restore(env, r, w, ids).failures) <==> Among(id, ids) && !Restorable(env, id)
    decreases |ids|
  {
    if |ids| > 0 {
      var n := |ids| - 1;
      RestoreFailures(env, r, RestoreOne(env, r, w, ids[n]), ids[..n], id);
      AmongSnoc(ids, id);
      AmongCons(ids[n], Restore(env, r, RestoreOne(env, r, w, ids[n]), ids[..n]).failures, id);
    }
  }

  lemma AmongSnoc(ids: seq<string>, id: string)
    requires |ids| > 0
    ensures Among(id, ids) <==> id == ids[|ids| - 1] || Among(id, ids[..|ids| - 1])
  {
    var n := |ids| - 1;
    assert forall i :: 0 <= i < n ==> ids[..n][i] == ids[i];
    if Among(id, ids[..n]) {
      var i :| 0 <= i < n && ids[..n][i] == id;
      assert ids[i] == id;
    }
  }

  lemma AmongCons(first: string, rest: seq<string>, id: string)
    ensures Among(id, [first] + rest) <==> id == first || Among(id, rest)
  {
    var ids := [first] + rest;
    if Among(id, rest) {
      var i :| 0 <= i < |rest| && rest[i] == id;
      assert ids[i + 1] == id;
    }
    if Among(id, ids) {
      var i :| 0 <= i < |ids| && ids[i] == id;
      if i > 0 { assert rest[i - 1] == id; }
    }
    assert ids[0] == first;
  }

  lemma {:induction false} FailuresAreDistinct(env: Env, r: Releases, w: World, ids: seq<string>)
    requires Distinct(ids)
    ensures Distinct(Restore(env, r, w, ids).failures)
    decreases |ids|
  {
    if |ids| > 0 {
      var n := |ids| - 1;
      var next := RestoreOne(env, r, w, ids[n]);
      DistinctInit(ids);
      FailuresAreDistinct(env, r, next, ids[..n]);
      RestoreFailures(env, r, next, ids[..n], ids[n]);
      DistinctCons(ids[n], Restore(env, r, next, ids[..n]).failures);
    }
  }

  lemma DistinctCons(first: string, rest: seq<string>)
    requires Distinct(rest) && !Among(first, rest)
    ensures Distinct([first] + rest)
  {
    var ids := [first] + rest;
    forall i, j | 0 <= i < j < |ids| ensures ids[i] != ids[j] {
      assert ids[j] == rest[j - 1];
      if i > 0 { assert ids[i] == rest[i - 1]; }
    }
  }

  // ---------------------------------------------------------------- all or nothing

  predicate AllRun(w: World, ids: seq<string>, version: string) {
    forall k :: 0 <= k < |ids| ==> RunsAt(w, ids[k], version)
  }

  /** The project whose own Stop ended the switch: the one project an update cannot answer for. */
  predicate OwnStopFailed(env: Env, r: Releases, w: World, running: seq<string>, k: nat) {
    var s := Switch(env, r, w, running);
    s.failure == Some(StopPrevious) && k == |s.migrated|
  }

  lemma PrefixFacts(ids: seq<string>, prefix: seq<string>, k: nat)
    requires Distinct(ids) && prefix <= ids && k < |ids|
    ensures Distinct(prefix)
    ensures k < |prefix| ==> prefix[k] == ids[k]
    ensures k >= |prefix| ==> !Among(ids[k], prefix)
  {
  }

  lemma RestoredProject(env: Env, r: Releases, w: World, running: seq<string>, k: nat)
    requires Distinct(running) && AllRun(w, running, r.previous) && k < |running|
    requires !OwnStopFailed(env, r, w, running, k)
    ensures var s := Switch(env, r, w, running);
            var back := Restore(env, r, s.world, s.migrated);
            !Among(running[k], back.failures) ==> RunsAt(back.world, running[k], r.previous)
  {
    var s := Switch(env, r, w, running);
    assert RunsAt(w, running[k], r.previous);
    MigratedIsPrefix(env, r, w, running);
    PrefixFacts(running, s.migrated, k);
    SwitchAt(env, r, w, running, k);
    RestoreFailures(env, r, s.world, s.migrated, running[k]);
    if k < |s.migrated| {
      assert Among(s.migrated[k], s.migrated);
      if Restorable(env, running[k]) { RestoreAt(env, r, s.world, s.migrated, k); }
    } else {
      RestoreUntouched(env, r, s.world, s.migrated, running[k]);
    }
  }

  lemma SwitchedProject(env: Env, r: Releases, w: World, running: seq<string>, k: nat)
    requires Distinct(running) && AllRun(w, running, r.previous) && k < |running|
    requires Switch(env, r, w, running).failure.None?
    ensures RunsAt(Switch(env, r, w, running).world, running[k], r.target)
  {
    assert RunsAt(w, running[k], r.previous);
    MigratedIsPrefix(env, r, w, running);
    SwitchAt(env, r, w, running, k);
  }

  /**
   An update is all or nothing for projects. On success every running project runs the target
   release. On a failure every running project runs the previous release again, except one
   that could not be restored, which is reported, and the one whose own Stop failed.
   */
  lemma UpdateIsAllOrNothing(env: Env, r: Releases, w: World, running: seq<string>, image: bool, host: bool)
    requires Distinct(running) && AllRun(w, running, r.previous)
    ensures var v, outcome := Apply(env, r, w, running, image, host).0, Apply(env, r, w, running, image, host).1;
            && (outcome.Updated? ==> AllRun(v, running, r.target))
            && (outcome.Failed? ==>
                forall k :: 0 <= k < |running|
                  && !Among(running[k], outcome.failures) && (image ==> !OwnStopFailed(env, r, w, running, k))
                  ==> RunsAt(v, running[k], r.previous))
            && (!image ==> v == w)
  {
    if image {
      forall k | 0 <= k < |running| && Switch(env, r, w, running).failure.None?
        ensures RunsAt(Switch(env, r, w, running).world, running[k], r.target)
      {
        SwitchedProject(env, r, w, running, k);
      }
      forall k | 0 <= k < |running| && !OwnStopFailed(env, r, w, running, k)
        ensures var s := Switch(env, r, w, running);
                var back := Restore(env, r, s.world, s.migrated);
                !Among(running[k], back.failures) ==> RunsAt(back.world, running[k], r.previous)
      {
        RestoredProject(env, r, w, running, k);
      }
    }
  }

  /** The joined error names each migrated project that could not be restored exactly once, and no other. */
  lemma FailuresAreExact(env: Env, r: Releases, w: World, running: seq<string>, host: bool, id: string)
    requires Distinct(running)
    ensures var outcome, s := Apply(env, r, w, running, true, host).1, Switch(env, r, w, running);
            outcome.Failed? ==>
              && Distinct(outcome.failures)
              && (Among(id, outcome.failures) <==> Among(id, s.migrated) && !Restorable(env, id))
  {
    var s := Switch(env, r, w, running);
    MigratedIsPrefix(env, r, w, running);
    if |running| > 0 { PrefixFacts(running, s.migrated, 0); }
    FailuresAreDistinct(env, r, s.world, s.migrated);
    RestoreFailures(env, r, s.world, s.migrated, id);
  }

  lemma AmongPrefix(ids: seq<string>, prefix: seq<string>, id: string)
    requires prefix <= ids && !Among(id, ids)
    ensures !Among(id, prefix)
  {
    forall i | 0 <= i < |prefix| ensures prefix[i] != id { assert prefix[i] == ids[i]; }
  }

  /** A project that was not running is left alone. */
  lemma OthersAreUntouched(env: Env, r: Releases, w: World, running: seq<string>, image: bool, host: bool, id: string)
    requires !Among(id, running)
    ensures Same(w, Apply(env, r, w, running, image, host).0, id)
  {
    var s := Switch(env, r, w, running);
    SwitchUntouched(env, r, w, running, id);
    MigratedIsPrefix(env, r, w, running);
    AmongPrefix(running, s.migrated, id);
    RestoreUntouched(env, r, s.world, s.migrated, id);
  }

  // ---------------------------------------------------------------- what a rollback leaves

  lemma {:induction false} SweepUntouched(env: Env, r: Releases, w: World, op: Op, ids: seq<string>, id: string)
    requires !Among(id, ids)
    ensures Same(w, Sweep(env, r, w, op, ids).world, id)
    decreases |ids|
  {
    if |ids| > 0 {
      assert ids[0] != id;
      forall i | 0 <= i < |ids[1..]| ensures ids[1..][i] != id { assert ids[1..][i] == ids[i + 1]; }
      SweepUntouched(env, r, Do(env, r, w, op, ids[0]), op, ids[1..], id);
    }
  }

  lemma {:induction false} SweepAt(env: Env, r: Releases, w: World, op: Op, ids: seq<string>, k: nat)
    requires Distinct(ids) && k < |ids| && ids[k] in w
    ensures var v := Sweep(env, r, w, op, ids).world;
            ids[k] in v && v[ids[k]] == One(env, r, op, ids[k], w[ids[k]])
    decreases |ids|
  {
    DistinctTail(ids);
    var next := Do(env, r, w, op, ids[0]);
    if k == 0 {
      SweepUntouched(env, r, next, op, ids[1..], ids[0]);
    } else {
      SweepAt(env, r, next, op, ids[1..], k - 1);
    }
  }

  lemma {:induction false} SweepFailures(env: Env, r: Releases, w: World, op: Op, ids: seq<string>, id: string)
    ensures Among(id, Sweep(env, r, w, op, ids).failures) <==> Among(id, ids) && env(op, id).Some?
    decreases |ids|
  {
    if |ids| > 0 {
      var next := Do(env, r, w, op, ids[0]);
      SweepFailures(env, r, next, op, ids[1..], id);
      assert [ids[0]] + ids[1..] == ids;
      AmongCons(ids[0], ids[1..], id);
      AmongCons(ids[0], Sweep(env, r, next, op, ids[1..]).failures, id);
    }
  }

  lemma NoFailures(env: Env, r: Releases, w: World, op: Op, ids: seq<string>, k: nat)
    requires k < |ids| && |Sweep(env, r, w, op, ids).failures| == 0
    ensures env(op, ids[k]).None?
  {
    SweepFailures(env, r, w, op, ids, ids[k]);
  }

  lemma {:induction false} RunningProps(projects: seq<string>, running: seq<string>, id: string)
    requires Distinct(projects)
    ensures Distinct(Running(projects, running))
    ensures Among(id, Running(projects, running)) <==> Among(id, projects) && Among(id, running)
    decreases |projects|
  {
    if |projects| > 0 {
      var rest := Running(projects[1..], running);
      DistinctTail(projects);
      RunningProps(projects[1..], running, id);
      RunningProps(projects[1..], running, projects[0]);
      assert [projects[0]] + projects[1..] == projects && [] + rest == rest;
      AmongCons(projects[0], projects[1..], id);
      AmongCons(projects[0], rest, id);
      if Among(projects[0], running) { DistinctCons(projects[0], rest); }
    }
  }

  /** The project after the passes of a clean rollback. */
  function RolledBack(p: Project, r: Releases, wasRunning: bool): Project {
    Project(if wasRunning then Some(r.previous) else p.run, r.previous)
  }

  /** The state of one project after an operation that did not fail anywhere. */
  lemma SweepClean(env: Env, r: Releases, w: World, op: Op, ids: seq<string>, id: string)
    requires Distinct(ids) && id in w && |Sweep(env, r, w, op, ids).failures| == 0
    ensures var v := Sweep(env, r, w, op, ids).world;
            id in v && v[id] == if Among(id, ids) then Effect(op, w[id], r) else w[id]
  {
    if Among(id, ids) {
      var k :| 0 <= k < |ids| && ids[k] == id;
      NoFailures(env, r, w, op, ids, k);
      SweepAt(env, r, w, op, ids, k);
    } else {
      SweepUntouched(env, r, w, op, ids, id);
    }
  }

  /** A rollback without failures leaves every registered project on the previous schema, and those that ran, running it. */
  lemma CleanRollback(env: Env, r: Releases, w: World, projects: seq<string>, running: seq<string>, id: string)
    requires Distinct(projects) && Distinct(running) && id in w && Among(id, projects)
    requires |RollbackAll(env, r, w, projects, running).failures| == 0
    ensures var v := RollbackAll(env, r, w, projects, running).world;
            id in v && v[id] == RolledBack(w[id], r, Among(id, running))
  {
    var stopped := Sweep(env, r, w, StopTarget, running);
    var restored := Sweep(env, r, stopped.world, RestoreSchema, projects);
    SweepClean(env, r, w, StopTarget, running, id);
    SweepClean(env, r, stopped.world, RestoreSchema, projects, id);
    RunningProps(projects, running, id);
    SweepClean(env, r, restored.world, StartPrevious, Running(projects, running), id);
  }

  /** If any Stop fails no schema is touched: every project whose own Stop worked keeps its schema. */
  lemma StopFailureTouchesNoSchema(env: Env, r: Releases, w: World, projects: seq<string>, running: seq<string>, k: nat)
    requires Distinct(running) && k < |running| && env(StopTarget, running[k]).Some?
    ensures var result := RollbackAll(env, r, w, projects, running);
            && |result.failures| > 0
            && (forall id :: Among(id, result.failures) <==> Among(id, running) && env(StopTarget, id).Some?)
            && forall id :: id in w && (Among(id, running) ==> env(StopTarget, id).None?)
                ==> id in result.world && result.world[id].schema == w[id].schema
  {
    var stopped := Sweep(env, r, w, StopTarget, running);
    SweepFailures(env, r, w, StopTarget, running, running[k]);
    assert Among(running[k], running);
    forall id ensures Among(id, stopped.failures) <==> Among(id, running) && env(StopTarget, id).Some? {
      SweepFailures(env, r, w, StopTarget, running, id);
    }
    forall id | id in w && (Among(id, running) ==> env(StopTarget, id).None?)
      ensures id in stopped.world && stopped.world[id].schema == w[id].schema
    {
      SchemaKept(env, r, w, running, id);
    }
  }

  lemma SchemaKept(env: Env, r: Releases, w: World, running: seq<string>, id: string)
    requires Distinct(running) && id in w && (Among(id, running) ==> env(StopTarget, id).None?)
    ensures var v := Sweep(env, r, w, StopTarget, running).world; id in v && v[id].schema == w[id].schema
  {
    if Among(id, running) {
      var k :| 0 <= k < |running| && running[k] == id;
      SweepAt(env, r, w, StopTarget, running, k);
    } else {
      SweepUntouched(env, r, w, StopTarget, running, id);
    }
  }

  /** If any schema cannot be restored, nothing is started again. */
  lemma RestoreFailureStartsNothing(env: Env, r: Releases, w: World, projects: seq<string>, running: seq<string>, j: nat, k: nat)
    requires Distinct(projects) && Distinct(running)
    requires |Sweep(env, r, w, StopTarget, running).failures| == 0
    requires j < |projects| && env(RestoreSchema, projects[j]).Some?
    requires k < |running| && running[k] in w && (Among(running[k], projects) ==> env(RestoreSchema, running[k]).None?)
    ensures var result := RollbackAll(env, r, w, projects, running);
            && Among(projects[j], result.failures)
            && running[k] in result.world && result.world[running[k]].run == None
  {
    var stopped := Sweep(env, r, w, StopTarget, running);
    assert Among(running[k], running) && Among(projects[j], projects);
    SweepClean(env, r, w, StopTarget, running, running[k]);
    SweepFailures(env, r, stopped.world, RestoreSchema, projects, projects[j]);
    RunKept(env, r, stopped.world, projects, running[k]);
  }

  lemma RunKept(env: Env, r: Releases, w: World, projects: seq<string>, id: string)
    requires Distinct(projects) && id in w && (Among(id, projects) ==> env(RestoreSchema, id).None?)
    ensures var v := Sweep(env, r, w, RestoreSchema, projects).world; id in v && v[id].run == w[id].run
  {
    if Among(id, projects) {
      var k :| 0 <= k < |projects| && projects[k] == id;
      SweepAt(env, r, w, RestoreSchema, projects, k);
    } else {
      SweepUntouched(env, r, w, RestoreSchema, projects, id);
    }
  }
}
