/** Which outcome an update or a rollback has, and how every project ends, from the environment alone. */
module UpdateOutcomes {
  // The environment says which operation on which project fails and what it leaves behind.
  // Nothing below refers to how a switch, a restore or a pass walks its list
  // (cmd/lctk/update.go:154-168, 196-227, 278-308).

  import opened Text
  import opened Update

  // ---------------------------------------------------------------- the switch

  /** The project cannot be moved to the target release. */
  predicate Fails(env: Env, id: string) { env(StopPrevious, id).Some? || env(StartTarget, id).Some? }

  /** The first project that cannot be moved, or the length. */
  function FirstFailing(env: Env, ids: seq<string>): (f: nat)
    ensures f <= |ids|
    ensures f < |ids| ==> Fails(env, ids[f])
    ensures forall k :: 0 <= k < f ==> !Fails(env, ids[k])
  {
    if |ids| == 0 || Fails(env, ids[0]) then 0 else 1 + FirstFailing(env, ids[1..])
  }

  /** How many projects were taken off the previous release: a project whose own Stop failed was not. */
  function Taken(env: Env, ids: seq<string>): (m: nat)
    ensures m <= |ids|
  {
    var f := FirstFailing(env, ids);
    if f < |ids| && env(StopPrevious, ids[f]).None? then f + 1 else f
  }

  function SwitchCause(env: Env, id: string): Op {
    if env(StopPrevious, id).Some? then StopPrevious else StartTarget
  }

  lemma {:induction false} SwitchIsExact(env: Env, r: Releases, w: World, ids: seq<string>)
    ensures var s, f := Switch(env, r, w, ids), FirstFailing(env, ids);
            && s.migrated == ids[..Taken(env, ids)]
            && s.failure == if f == |ids| then None else Some(SwitchCause(env, ids[f]))
    decreases |ids|
  {
    if |ids| > 0 && !Fails(env, ids[0]) {
      var rest := ids[1..];
      SwitchIsExact(env, r, SwitchOne(env, r, w, ids[0]), rest);
      assert [ids[0]] + rest[..Taken(env, rest)] == ids[..Taken(env, ids)];
    }
  }

  /**
   An update succeeds exactly when the image is installed, every running project stops and
   starts again on the target, and the host is installed.
   */
  lemma UpdateSucceedsExactly(env: Env, r: Releases, w: World, running: seq<string>, image: bool, host: bool)
    ensures Apply(env, r, w, running, image, host).1.Updated? <==>
              image && host
              && forall k :: 0 <= k < |running| ==> env(StopPrevious, running[k]).None? && env(StartTarget, running[k]).None?
  {
    SwitchIsExact(env, r, w, running);
    if forall k :: 0 <= k < |running| ==> !Fails(env, running[k]) {
      assert FirstFailing(env, running) == |running|;
    }
  }

  /** Why an update failed: no image, else the first project that could not be moved and by which operation, else the host. */
  lemma CauseIsExact(env: Env, r: Releases, w: World, running: seq<string>, image: bool, host: bool)
    requires Apply(env, r, w, running, image, host).1.Failed?
    ensures var cause := Apply(env, r, w, running, image, host).1.cause;
            && (!image ==> cause == ImageNotInstalled)
            && (image && (forall k :: 0 <= k < |running| ==> !Fails(env, running[k])) ==> !host && cause == HostNotInstalled)
            && (forall k :: image && FailsFirst(env, running, k) ==>
                  cause == SwitchFailed(if env(StopPrevious, running[k]).Some? then StopPrevious else StartTarget))
  {
    SwitchIsExact(env, r, w, running);
    assert forall k :: FailsFirst(env, running, k) ==> k == FirstFailing(env, running);
  }

  predicate FailsFirst(env: Env, ids: seq<string>, k: int) {
    0 <= k < |ids| && Fails(env, ids[k]) && forall j :: 0 <= j < k ==> !Fails(env, ids[j])
  }

  // ---------------------------------------------------------------- how each project ends

  /** What a restore leaves of a project: what its first failing operation left, or the previous release. */
  function Left(env: Env, r: Releases, id: string): Project {
    if env(StopTarget, id).Some? then env(StopTarget, id).value
    else if env(RestoreSchema, id).Some? then env(RestoreSchema, id).value
    else if env(StartPrevious, id).Some? then env(StartPrevious, id).value
    else Project(Some(r.previous), r.previous)
  }

  lemma RestoreOneLeaves(env: Env, r: Releases, w: World, id: string)
    requires id in w
    ensures id in RestoreOne(env, r, w, id) && RestoreOne(env, r, w, id)[id] == Left(env, r, id)
  {
  }

  lemma {:induction false} RestoreLeaves(env: Env, r: Releases, w: World, ids: seq<string>, k: nat)
    requires Distinct(ids) && k < |ids| && ids[k] in w
    ensures var v := Restore(env, r, w, ids).world; ids[k] in v && v[ids[k]] == Left(env, r, ids[k])
    decreases |ids|
  {
    var n := |ids| - 1;
    var next := RestoreOne(env, r, w, ids[n]);
    DistinctInit(ids);
    if k == n {
      RestoreOneLeaves(env, r, w, ids[n]);
      RestoreUntouched(env, r, next, ids[..n], ids[n]);
    } else {
      RestoreLeaves(env, r, next, ids[..n], k);
    }
  }

  /** A project whose own Stop failed is as that operation left it: nothing is started on it. */
  lemma {:induction false} StopFailureLeaves(env: Env, r: Releases, w: World, ids: seq<string>)
    requires Distinct(ids) && FirstFailing(env, ids) < |ids|
    requires var id := ids[FirstFailing(env, ids)]; id in w && env(StopPrevious, id).Some?
    ensures var v, id := Switch(env, r, w, ids).world, ids[FirstFailing(env, ids)];
            id in v && v[id] == env(StopPrevious, id).value
    decreases |ids|
  {
    if !Fails(env, ids[0]) {
      DistinctTail(ids);
      var f := FirstFailing(env, ids[1..]);
      assert ids[1..][f] == ids[f + 1];
      StopFailureLeaves(env, r, SwitchOne(env, r, w, ids[0]), ids[1..]);
    }
  }

  /**
   How every running project ends after a failed update: one that was taken off the previous
   release as its restore leaves it, the one whose own Stop failed as that left it, and any
   other as it was.
   */
  lemma ProjectsEndExactly(env: Env, r: Releases, w: World, running: seq<string>, host: bool, k: nat)
    requires Distinct(running) && k < |running| && running[k] in w
    requires Apply(env, r, w, running, true, host).1.Failed?
    ensures var v, id, m := Apply(env, r, w, running, true, host).0, running[k], Taken(env, running);
            && id in v
            && v[id] == if k < m then Left(env, r, id)
                        else if k == FirstFailing(env, running) then env(StopPrevious, id).value
                        else w[id]
  {
    var s, m, id := Switch(env, r, w, running), Taken(env, running), running[k];
    SwitchIsExact(env, r, w, running);
    PrefixFacts(running, s.migrated, k);
    SwitchAt(env, r, w, running, k);
    if k < m {
      RestoreLeaves(env, r, s.world, s.migrated, k);
    } else {
      RestoreUntouched(env, r, s.world, s.migrated, id);
      if k == FirstFailing(env, running) { StopFailureLeaves(env, r, w, running); }
    }
  }

  /** The projects of a list that cannot be restored, the last of the list first. */
  function Unrestored(env: Env, ids: seq<string>): seq<string> {
    if |ids| == 0 then [] else Unrestored(env, ids[1..]) + (if Restorable(env, ids[0]) then [] else [ids[0]])
  }

  lemma {:induction false} UnrestoredSnoc(env: Env, ids: seq<string>, id: string)
    ensures Unrestored(env, ids + [id]) == (if Restorable(env, id) then [] else [id]) + Unrestored(env, ids)
    decreases |ids|
  {
    var all := ids + [id];
    if |ids| == 0 {
      assert all[1..] == [];
    } else {
      assert all[1..] == ids[1..] + [id];
      UnrestoredSnoc(env, ids[1..], id);
      Regroup(if Restorable(env, id) then [] else [id], Unrestored(env, ids[1..]), if Restorable(env, ids[0]) then [] else [ids[0]]);
    }
  }

  lemma Regroup<T>(a: seq<T>, b: seq<T>, c: seq<T>)
    ensures (a + b) + c == a + (b + c)
  {
  }

  lemma {:induction false} RestoreReports(env: Env, r: Releases, w: World, ids: seq<string>)
    ensures Restore(env, r, w, ids).failures == Unrestored(env, ids)
    decreases |ids|
  {
    if |ids| > 0 {
      var n := |ids| - 1;
      RestoreReports(env, r, RestoreOne(env, r, w, ids[n]), ids[..n]);
      UnrestoredSnoc(env, ids[..n], ids[n]);
      assert ids[..n] + [ids[n]] == ids && [] + Unrestored(env, ids[..n]) == Unrestored(env, ids[..n]);
    }
  }

  /** The joined error of a failed update: each project taken off and not restored, the last one first. */
  lemma FailuresAreListed(env: Env, r: Releases, w: World, running: seq<string>, image: bool, host: bool)
    requires Apply(env, r, w, running, image, host).1.Failed?
    ensures Apply(env, r, w, running, image, host).1.failures
         == if image then Unrestored(env, running[..Taken(env, running)]) else []
  {
    SwitchIsExact(env, r, w, running);
    RestoreReports(env, r, Switch(env, r, w, running).world, running[..Taken(env, running)]);
  }

  // ---------------------------------------------------------------- the rollback

  /** The projects of a list on which an operation fails, in the list's order. */
  function Failing(env: Env, op: Op, ids: seq<string>): seq<string> {
    if |ids| == 0 then []
    else Failing(env, op, ids[..|ids| - 1]) + (if env(op, ids[|ids| - 1]).Some? then [ids[|ids| - 1]] else [])
  }

  lemma {:induction false} FailingCons(env: Env, op: Op, id: string, ids: seq<string>)
    ensures Failing(env, op, [id] + ids) == (if env(op, id).Some? then [id] else []) + Failing(env, op, ids)
    decreases |ids|
  {
    var all := [id] + ids;
    if |ids| == 0 {
      assert all[..0] == [];
    } else {
      var n := |ids| - 1;
      assert all[..|all| - 1] == [id] + ids[..n] && all[|all| - 1] == ids[n];
      FailingCons(env, op, id, ids[..n]);
      Regroup(if env(op, id).Some? then [id] else [], Failing(env, op, ids[..n]), if env(op, ids[n]).Some? then [ids[n]] else []);
    }
  }

  lemma {:induction false} SweepReports(env: Env, r: Releases, w: World, op: Op, ids: seq<string>)
    ensures Sweep(env, r, w, op, ids).failures == Failing(env, op, ids)
    decreases |ids|
  {
    if |ids| > 0 {
      SweepReports(env, r, Do(env, r, w, op, ids[0]), op, ids[1..]);
      FailingCons(env, op, ids[0], ids[1..]);
      assert [ids[0]] + ids[1..] == ids && [] + Failing(env, op, ids[1..]) == Failing(env, op, ids[1..]);
    }
  }

  /** The members of a list that are also in another, in the first list's order. */
  function Both(projects: seq<string>, running: seq<string>): seq<string> {
    if |projects| == 0 then []
    else
      var n := |projects| - 1;
      Both(projects[..n], running) + (if projects[n] in running then [projects[n]] else [])
  }

  lemma {:induction false} BothCons(id: string, projects: seq<string>, running: seq<string>)
    ensures Both([id] + projects, running) == (if id in running then [id] else []) + Both(projects, running)
    decreases |projects|
  {
    var all := [id] + projects;
    if |projects| == 0 {
      assert all[..0] == [];
    } else {
      var n := |projects| - 1;
      assert all[..|all| - 1] == [id] + projects[..n] && all[|all| - 1] == projects[n];
      BothCons(id, projects[..n], running);
      Regroup(if id in running then [id] else [], Both(projects[..n], running), if projects[n] in running then [projects[n]] else []);
    }
  }

  lemma {:induction false} RunningIsBoth(projects: seq<string>, running: seq<string>)
    ensures Running(projects, running) == Both(projects, running)
    decreases |projects|
  {
    if |projects| > 0 {
      RunningIsBoth(projects[1..], running);
      BothCons(projects[0], projects[1..], running);
      assert [projects[0]] + projects[1..] == projects;
      assert Among(projects[0], running) <==> projects[0] in running;
    }
  }

  /**
   What a rollback reports: the Stops that failed; if none did, the schemas that could not be
   restored; if none, the registered projects that ran and did not start again. So it succeeds
   exactly when none of these fails.
   */
  lemma RollbackReportsExactly(env: Env, r: Releases, w: World, projects: seq<string>, running: seq<string>)
    ensures RollbackAll(env, r, w, projects, running).failures
         == if Failing(env, StopTarget, running) != [] then Failing(env, StopTarget, running)
            else if Failing(env, RestoreSchema, projects) != [] then Failing(env, RestoreSchema, projects)
            else Failing(env, StartPrevious, Both(projects, running))
  {
    var stopped := Sweep(env, r, w, StopTarget, running);
    var restored := Sweep(env, r, stopped.world, RestoreSchema, projects);
    SweepReports(env, r, w, StopTarget, running);
    SweepReports(env, r, stopped.world, RestoreSchema, projects);
    SweepReports(env, r, restored.world, StartPrevious, Running(projects, running));
    RunningIsBoth(projects, running);
  }

  /** A project that fails to start again does not keep the others from starting. */
  lemma StartFailureStopsNoOther(env: Env, r: Releases, w: World, projects: seq<string>, running: seq<string>, id: string)
    requires Distinct(projects) && Distinct(running) && id in w && Among(id, projects)
    requires Failing(env, StopTarget, running) == [] && Failing(env, RestoreSchema, projects) == []
    requires env(StartPrevious, id).None?
    ensures var v := RollbackAll(env, r, w, projects, running).world;
            id in v && v[id] == RolledBack(w[id], r, Among(id, running))
  {
    var stopped := Sweep(env, r, w, StopTarget, running);
    var restored := Sweep(env, r, stopped.world, RestoreSchema, projects);
    SweepReports(env, r, w, StopTarget, running);
    SweepReports(env, r, stopped.world, RestoreSchema, projects);
    SweepClean(env, r, w, StopTarget, running, id);
    SweepClean(env, r, stopped.world, RestoreSchema, projects, id);
    var restart := Running(projects, running);
    RunningProps(projects, running, id);
    if Among(id, restart) {
      var k :| 0 <= k < |restart| && restart[k] == id;
      SweepAt(env, r, restored.world, StartPrevious, restart, k);
    } else {
      SweepUntouched(env, r, restored.world, StartPrevious, restart, id);
    }
  }
}
