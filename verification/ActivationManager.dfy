/**
 The activation manager's stepwise disk changes (Install, Adopt, Rollback and writeActivation
 of internal/installation/activation.go), with every disk state a crash could leave recorded.
 */
module ActivationManager {
  import opened Text
  import opened Activation

  datatype Result<+T> = Ok(value: T) | Err

  /** The part of a manifest an install uses; a validated manifest has a positive size. */
  datatype Artifact = Artifact(version: string, digest: string, size: int)

  /** A step outside the manager's control. */
  datatype Step = Fetch | Open(path: string) | Fill(path: string) | Rename(path: string) | SelfTest

  /** What the disk, the network and the clock do during one call. */
  datatype Env = Env(fails: Step -> bool, served: string, now: string)

  /** A temporary file can be written and renamed over its target. */
  predicate Writes(env: Env, temporary: string, target: string) {
    !env.fails(Open(temporary)) && !env.fails(Fill(temporary)) && !env.fails(Rename(target))
  }

  predicate DocumentWrites(env: Env) { Writes(env, TEMPORARY, DOCUMENT) }

  /** A download succeeds: none is unfinished, what arrives is what was signed, and it can be stored. */
  predicate Delivers(t: Tools, files: Files, env: Env, a: Artifact) {
    var path := CorePath(a.version);
    && path + ".download" !in files && !env.fails(Fetch)
    && |env.served| == a.size && t.digest(env.served) == a.digest
    && Writes(env, path + ".download", path)
  }

  /** The packaged core is there already, or can be copied: an empty one never, nor over an unfinished copy. */
  predicate Copies(t: Tools, files: Files, env: Env, version: string, packaged: string) {
    var path := CorePath(version);
    || Verified(t, files, Core(version, path, t.digest(packaged), |packaged|))
    || (path + ".adopt" !in files && packaged != "" && Writes(env, path + ".adopt", path))
  }

  function Target(a: Artifact): Core { Core(a.version, CorePath(a.version), a.digest, a.size) }

  /** The disk is one of two, temporary files aside. */
  ghost predicate Either(d: Files, before: Files, after: Files, version: string) {
    Agree(d, before, Temps(version)) || Agree(d, after, Temps(version))
  }

  /** So is every disk state of a trace from `start` on. */
  ghost predicate Passes(trace: seq<Files>, start: nat, before: Files, after: Files, version: string) {
    forall i :: start <= i < |trace| ==> Either(trace[i], before, after, version)
  }

  /** In every disk state from `start` on, the launcher finds `before` or `after`. */
  ghost predicate AlwaysLaunches(t: Tools, trace: seq<Files>, start: nat, before: Option<Program>, after: Option<Program>) {
    forall i :: start <= i < |trace| ==> Launch(t, trace[i]) == before || Launch(t, trace[i]) == after
  }

  lemma AgreeTemp(d: Files, e: Files, path: string, content: string, version: string)
    requires Agree(d, e, Temps(version)) && path in Temps(version)
    ensures Agree(d[path := content], e, Temps(version)) && Agree(d - {path}, e, Temps(version))
  {
  }

  lemma AgreeMoved(d: Files, e: Files, source: string, target: string, content: string, version: string)
    requires Agree(d, e, Temps(version)) && source in Temps(version) && target !in Temps(version)
    ensures Agree((d - {source})[target := content], e[target := content], Temps(version))
  {
  }

  /** A trace that passes between two disks that launch `old` and `new_` always launches one of them. */
  lemma PassesLaunch(t: Tools, trace: seq<Files>, start: nat, before: Files, after: Files, version: string)
    requires Kept(t, before) && Kept(t, after) && Passes(trace, start, before, after, version)
    ensures AlwaysLaunches(t, trace, start, Launch(t, before), Launch(t, after))
  {
    forall i | start <= i < |trace|
      ensures Launch(t, trace[i]) == Launch(t, before) || Launch(t, trace[i]) == Launch(t, after)
    {
      assert Either(trace[i], before, after, version);
      if Agree(trace[i], before, Temps(version)) {
        TempsDoNotLaunch(t, trace[i], before, version);
      } else {
        TempsDoNotLaunch(t, trace[i], after, version);
      }
    }
  }

  lemma AgreeVerifies(t: Tools, d: Files, e: Files, core: Core, version: string)
    requires Agree(d, e, Temps(version)) && Placed(t, core)
    ensures Verified(t, d, core) == Verified(t, e, core)
  {
    TempsAreApart(version);
    assert t.clean(core.executable) !in Temps(version);
  }

  /** What an installed artifact runs as. */
  function Wanted(a: Artifact): Program { Program(CorePath(a.version), a.digest, a.size) }

  lemma TargetIsWanted(t: Tools, artifact: Artifact)
    requires Lawful(t) && PlainName(artifact.version)
    ensures ProgramOf(t, Target(artifact)) == Wanted(artifact) && Placed(t, Target(artifact))
    ensures Resolve(t, Target(artifact).executable).Some?
  {
    CoreResolves(t, artifact.version);
    CorePathsAreDurable(artifact.version);
  }

  /** The artifact's file is not the active core's. */
  predicate Apart(t: Tools, files: Files, artifact: Artifact) {
    var l := Load(t, files);
    l.Loaded? ==> ProgramOf(t, l.activation.active).path != CorePath(artifact.version)
  }

  /** The condition of StoringIsSafeExactly: another file, or the active core itself. */
  predicate Safe(t: Tools, files: Files, artifact: Artifact) {
    Apart(t, files, artifact) || ProgramOf(t, Load(t, files).activation.active) == Wanted(artifact)
  }

  /** With the target stored and verified, the new document launches it and keeps the old core as a verified target. */
  lemma InstallCommits(t: Tools, files: Files, artifact: Artifact, at: string)
    requires Lawful(t) && Kept(t, files) && !Load(t, files).Broken? && PlainName(artifact.version)
    requires Verified(t, files, Target(artifact))
    ensures var next := Installed(Load(t, files), Target(artifact), at);
            var d := WithDocument(t, files, next);
            && Load(t, d) == Loaded(next) && Launch(t, d) == Some(Wanted(artifact)) && Kept(t, d)
            && (Launch(t, files).Some? ==> CanRollBack(t, d))
  {
    TargetIsWanted(t, artifact);
    DocumentLaunches(t, files, Installed(Load(t, files), Target(artifact), at));
  }

  /** What a download may leave behind: the disk as it was, or the signed core in place. */
  ghost predicate Delivered(t: Tools, before: Files, after: Files, artifact: Artifact, body: string) {
    after == before ||
    (after == before[CorePath(artifact.version) := body] && |body| == artifact.size && t.digest(body) == artifact.digest)
  }

  /** The old core still launches, or, where that was the very artifact but damaged, the repaired one does. */
  lemma StoreThenLaunch(t: Tools, before: Files, after: Files, artifact: Artifact, body: string)
    requires Lawful(t) && Kept(t, before) && Safe(t, before, artifact) && PlainName(artifact.version)
    requires Delivered(t, before, after, artifact, body)
    ensures Kept(t, after) && Load(t, after) == Load(t, before)
    ensures Launch(t, after) == Launch(t, before) || Launch(t, after) == Some(Wanted(artifact))
    ensures Apart(t, before, artifact) ==> Launch(t, after) == Launch(t, before)
  {
    StoringKeepsDocument(t, before, artifact.version, body);
  }

  lemma StoredVerifies(t: Tools, before: Files, files: Files, artifact: Artifact, body: string)
    requires Lawful(t) && PlainName(artifact.version) && artifact.size > 0
    requires Agree(files, before[CorePath(artifact.version) := body], Temps(artifact.version))
    requires |body| == artifact.size && t.digest(body) == artifact.digest
    ensures Verified(t, files, Target(artifact))
  {
    TargetIsWanted(t, artifact);
    AgreeVerifies(t, files, before[CorePath(artifact.version) := body], Target(artifact), artifact.version);
  }

  lemma JoinTraces(t: Tools, trace: seq<Files>, start: nat, mid: nat, more: seq<Files>, old_: Option<Program>, new_: Option<Program>)
    requires start <= mid == |trace| && trace <= more
    requires AlwaysLaunches(t, trace, start, old_, new_) && AlwaysLaunches(t, more, mid, old_, new_)
    ensures AlwaysLaunches(t, more, start, old_, new_)
  {
    forall i | start <= i < |more| ensures Launch(t, more[i]) == old_ || Launch(t, more[i]) == new_ {
      if i < mid { assert more[i] == trace[i]; }
    }
  }

  lemma WeakenLaunches(t: Tools, trace: seq<Files>, start: nat, old_: Option<Program>, mid: Option<Program>, new_: Option<Program>)
    requires AlwaysLaunches(t, trace, start, old_, mid) && (mid == old_ || mid == new_)
    ensures AlwaysLaunches(t, trace, start, old_, new_)
  {
  }

  lemma EitherLaunches(t: Tools, trace: seq<Files>, start: nat, found: Option<Program>, old_: Option<Program>, new_: Option<Program>)
    requires AlwaysLaunches(t, trace, start, found, new_) && (found == old_ || found == new_)
    ensures AlwaysLaunches(t, trace, start, old_, new_)
  {
  }

  class Manager {
    const tools: Tools
    var files: Files
    ghost var trace: seq<Files>

    constructor (tools: Tools, files: Files)
      ensures this.tools == tools && this.files == files && trace == []
    {
      this.tools := tools;
      this.files := files;
      this.trace := [];
    }

    method Write(path: string, content: string)
      modifies this
      ensures files == old(files)[path := content] && trace == old(trace) + [files]
    {
      files := files[path := content];
      trace := trace + [files];
    }

    method Remove(path: string)
      modifies this
      ensures files == old(files) - {path} && trace == old(trace) + [files]
    {
      files := files - {path};
      trace := trace + [files];
    }

    /** An atomic replacement. */
    method Rename(source: string, target: string)
      requires source in files
      modifies this
      ensures files == (old(files) - {source})[target := old(files)[source]] && trace == old(trace) + [files]
    {
      files := (files - {source})[target := files[source]];
      trace := trace + [files];
    }

    /** Fill a temporary file; a crash may leave anything in it. */
    method FillFile(temporary: string, content: string, env: Env, ghost version: string) returns (ok: bool)
      requires temporary in Temps(version)
      modifies this
      ensures old(trace) <= trace
      ensures forall i :: |old(trace)| <= i < |trace| ==> Agree(trace[i], old(files), Temps(version))
      ensures Agree(files, old(files), Temps(version))
      ensures ok ==> temporary in files && files[temporary] == content
      ensures ok <==> !env.fails(Open(temporary)) && !env.fails(Fill(temporary))
    {
      if env.fails(Open(temporary)) {
        return false;
      }
      var partial: string := *;
      ghost var start := files;
      Write(temporary, partial);
      AgreeTemp(start, start, temporary, partial, version);
      if env.fails(Fill(temporary)) {
        AgreeTemp(files, start, temporary, partial, version);
        Remove(temporary);
        return false;
      }
      AgreeTemp(files, start, temporary, content, version);
      Write(temporary, content);
      return true;
    }

    /** Fill a temporary file and rename it over `target`. */
    method Replace(temporary: string, target: string, content: string, env: Env, ghost version: string) returns (ok: bool)
      requires temporary in Temps(version) && target !in Temps(version)
      modifies this
      ensures old(trace) <= trace
      ensures Passes(trace, |old(trace)|, old(files), old(files)[target := content], version)
      ensures Agree(files, if ok then old(files)[target := content] else old(files), Temps(version))
      ensures ok <==> Writes(env, temporary, target)
    {
      ghost var start := files;
      ok := FillFile(temporary, content, env, version);
      if !ok {
        return;
      }
      if env.fails(Step.Rename(target)) {
        AgreeTemp(files, start, temporary, content, version);
        Remove(temporary);
        return false;
      }
      AgreeMoved(files, start, temporary, target, content, version);
      Rename(temporary, target);
    }

    method WriteActivation(a: Activation, env: Env, ghost version: string) returns (ok: bool)
      modifies this
      ensures old(trace) <= trace
      ensures Passes(trace, |old(trace)|, old(files), WithDocument(tools, old(files), a), version)
      ensures Agree(files, if ok then WithDocument(tools, old(files), a) else old(files), Temps(version))
      ensures ok <==> DocumentWrites(env)
    {
      TempsAreApart(version);
      ok := Replace(TEMPORARY, DOCUMENT, tools.encode(a), env, version);
    }

    /**
     A download lands only if what arrived has the signed size and digest, and it is refused
     while an unfinished one is on the disk.
     */
    method Download(artifact: Artifact, env: Env) returns (ok: bool, ghost after: Files, ghost body: string)
      requires artifact.size > 0 && Lawful(tools)
      modifies this
      ensures old(trace) <= trace
      ensures Delivered(tools, old(files), after, artifact, body)
      ensures Passes(trace, |old(trace)|, old(files), after, artifact.version)
      ensures Agree(files, if ok then after else old(files), Temps(artifact.version))
      ensures ok ==> after == old(files)[CorePath(artifact.version) := body]
      ensures ok ==> |body| == artifact.size && tools.digest(body) == artifact.digest
      ensures body == env.served && (ok <==> Delivers(tools, old(files), env, artifact))
      ensures CorePath(artifact.version) + ".download" in old(files) ==> !ok && files == old(files)
    {
      var path := CorePath(artifact.version);
      var temporary := path + ".download";
      var received := env.served;
      after, body := files, received;
      if temporary in files {
        return false, after, body;
      }
      if env.fails(Fetch) {
        return false, after, body;
      }
      TempsAreApart(artifact.version);
      if |received| != artifact.size || tools.digest(received) != artifact.digest {
        AgreeTemp(after, after, temporary, received, artifact.version);
        Write(temporary, received);
        AgreeTemp(files, after, temporary, received, artifact.version);
        Remove(temporary);
        return false, after, body;
      }
      CorePathsAreDurable(artifact.version);
      after := files[path := received];
      ok := Replace(temporary, path, received, env, artifact.version);
    }

    /** The target core on the disk, downloaded if it is not there yet. */
    method Store(artifact: Artifact, env: Env) returns (ok: bool)
      requires artifact.size > 0 && PlainName(artifact.version) && Lawful(tools)
      requires Kept(tools, files) && Safe(tools, files, artifact)
      modifies this
      ensures old(trace) <= trace
      ensures AlwaysLaunches(tools, trace, |old(trace)|, old(Launch(tools, files)), Some(Wanted(artifact)))
      ensures Kept(tools, files) && Load(tools, files) == old(Load(tools, files))
      ensures Launch(tools, files) == old(Launch(tools, files)) || Launch(tools, files) == Some(Wanted(artifact))
      ensures old(Apart(tools, files, artifact)) ==> Launch(tools, files) == old(Launch(tools, files))
      ensures ok ==> Verified(tools, files, Target(artifact))
      ensures ok <==> Verified(tools, old(files), Target(artifact)) || Delivers(tools, old(files), env, artifact)
      ensures Verified(tools, old(files), Target(artifact)) ==> files == old(files) && trace == old(trace)
      ensures CorePath(artifact.version) + ".download" in old(files) && !Verified(tools, old(files), Target(artifact))
        ==> !ok && files == old(files)
    {
      if Verified(tools, files, Target(artifact)) {
        return true;
      }
      ghost var before := files;
      ghost var after, body;
      ok, after, body := Download(artifact, env);
      StoreThenLaunch(tools, before, after, artifact, body);
      PassesLaunch(tools, trace, |old(trace)|, before, after, artifact.version);
      WeakenLaunches(tools, trace, |old(trace)|, Launch(tools, before), Launch(tools, after), Some(Wanted(artifact)));
      TempsDoNotLaunch(tools, files, if ok then after else before, artifact.version);
      if ok {
        StoredVerifies(tools, before, files, artifact, body);
      }
    }

    /** Make a document active; the launcher finds the old core or the new one throughout. */
    method Commit(next: Activation, env: Env, ghost version: string) returns (ok: bool)
      requires Kept(tools, files) && Kept(tools, WithDocument(tools, files, next))
      modifies this
      ensures old(trace) <= trace
      ensures AlwaysLaunches(tools, trace, |old(trace)|, old(Launch(tools, files)),
                             Launch(tools, WithDocument(tools, old(files), next)))
      ensures Kept(tools, files)
      ensures var d := if ok then WithDocument(tools, old(files), next) else old(files);
              && Load(tools, files) == Load(tools, d) && Launch(tools, files) == Launch(tools, d)
              && CanRollBack(tools, files) == CanRollBack(tools, d)
      ensures ok <==> DocumentWrites(env)
    {
      ghost var before := files;
      ok := WriteActivation(next, env, version);
      PassesLaunch(tools, trace, |old(trace)|, before, WithDocument(tools, before, next), version);
      TempsDoNotLaunch(tools, files, if ok then WithDocument(tools, before, next) else before, version);
    }

    /**
     Install any version but other contents for the active one. At every disk state the
     launcher finds the old core or the verified new one; on success the new one, with the old
     one as a rollback target that verifies; on failure the document is unchanged. Installing
     the active core again makes it its own rollback target, and repairs it if it was damaged.
     */
    method Install(artifact: Artifact, available: int, env: Env) returns (r: Result<Activation>)
      requires artifact.size > 0 && PlainName(artifact.version) && Lawful(tools)
      requires Kept(tools, files) && Safe(tools, files, artifact)
      modifies this
      ensures old(trace) <= trace
      ensures AlwaysLaunches(tools, trace, |old(trace)|, old(Launch(tools, files)), Some(Wanted(artifact)))
      ensures Kept(tools, files)
      ensures r.Ok? <==>
        && !old(Load(tools, files)).Broken?
        && available >= (if Verified(tools, old(files), Target(artifact)) then 0 else 2 * artifact.size) + 64 * 1024 * 1024
        && (Verified(tools, old(files), Target(artifact)) || Delivers(tools, old(files), env, artifact))
        && !env.fails(SelfTest) && DocumentWrites(env)
      ensures r.Err? ==> Load(tools, files) == old(Load(tools, files))
      ensures r.Err? && (old(Apart(tools, files, artifact)) || old(Launch(tools, files)).Some?)
        ==> Launch(tools, files) == old(Launch(tools, files))
      ensures r.Ok? ==>
        && Load(tools, files) == Loaded(r.value) && Launch(tools, files) == Some(Wanted(artifact))
        && r.value == Installed(old(Load(tools, files)), Target(artifact), env.now)
        && (old(Launch(tools, files)).Some? ==> CanRollBack(tools, files))
      ensures r.Ok? && !old(Apart(tools, files, artifact)) ==>
        CanRollBack(tools, files) && ProgramOf(tools, r.value.previous) == ProgramOf(tools, r.value.active)
      ensures CorePath(artifact.version) + ".download" in old(files) && !Verified(tools, old(files), Target(artifact))
        ==> r.Err? && files == old(files)
      ensures available < (if Verified(tools, old(files), Target(artifact)) then 0 else 2 * artifact.size) + 64 * 1024 * 1024
        ==> r.Err? && files == old(files) && trace == old(trace)
      ensures old(Load(tools, files)).Broken? ==> r.Err? && files == old(files) && trace == old(trace)
    {
      var loaded := Load(tools, files);
      if loaded.Broken? {
        return Err;
      }
      var download := if Verified(tools, files, Target(artifact)) then 0 else artifact.size;
      if available < RequiredBytes(download) {
        return Err;
      }
      TargetIsWanted(tools, artifact);
      ghost var launched := Launch(tools, files);
      var stored := Store(artifact, env);
      if !stored {
        return Err;
      }
      if env.fails(SelfTest) {
        return Err;
      }
      var next := Installed(loaded, Target(artifact), env.now);
      InstallCommits(tools, files, artifact, env.now);
      ghost var mid, found := trace, Launch(tools, files);
      var ok := Commit(next, env, artifact.version);
      EitherLaunches(tools, trace, |mid|, found, launched, Some(Wanted(artifact)));
      JoinTraces(tools, mid, |old(trace)|, |mid|, trace, launched, Some(Wanted(artifact)));
      return if ok then Ok(next) else Err;
    }

    /**
     Roll back to the previous core. At every disk state the launcher finds the core that was
     active or the verified previous one; the document swaps the two.
     */
    method Rollback(env: Env) returns (r: Result<Activation>)
      requires Lawful(tools) && Kept(tools, files)
      modifies this
      ensures old(trace) <= trace
      ensures Kept(tools, files)
      ensures r.Ok? <==> old(CanRollBack(tools, files)) && DocumentWrites(env)
      ensures old(CanRollBack(tools, files)) ==>
        AlwaysLaunches(tools, trace, |old(trace)|, old(Launch(tools, files)),
                       Some(ProgramOf(tools, old(Load(tools, files)).activation.previous)))
      ensures r.Ok? ==>
        && r.value == RolledBack(old(Load(tools, files)).activation, env.now)
        && Load(tools, files) == Loaded(r.value) && Launch(tools, files) == Some(ProgramOf(tools, r.value.active))
        && (old(Launch(tools, files)).Some? ==> CanRollBack(tools, files))
      ensures r.Err? ==> Load(tools, files) == old(Load(tools, files)) && Launch(tools, files) == old(Launch(tools, files))
      ensures !old(CanRollBack(tools, files)) ==> files == old(files) && trace == old(trace)
    {
      if !CanRollBack(tools, files) {
        return Err;
      }
      var current := Load(tools, files).activation;
      var next := RolledBack(current, env.now);
      DocumentLaunches(tools, files, next);
      var ok := Commit(next, env, current.active.version);
      return if ok then Ok(next) else Err;
    }

    /**
     Adopt the packaged core into an empty home. An existing activation is never changed; until
     the first document is written nothing launches, and then only the verified copy does.
     */
    method Adopt(version: string, packaged: string, available: int, env: Env) returns (r: Result<Activation>)
      requires PlainName(version) && Lawful(tools) && Kept(tools, files)
      modifies this
      ensures old(trace) <= trace
      ensures Kept(tools, files)
      ensures !old(Load(tools, files)).Missing? ==> files == old(files) && trace == old(trace)
      ensures old(Load(tools, files)).Loaded? ==>
        r == if old(Load(tools, files)).activation.active.version == version
             then Ok(old(Load(tools, files)).activation) else Err
      ensures old(Load(tools, files)).Missing? ==>
        AlwaysLaunches(tools, trace, |old(trace)|, None,
                       Some(Program(CorePath(version), tools.digest(packaged), |packaged|)))
      ensures available < 2 * |packaged| + 64 * 1024 * 1024 ==> files == old(files) && trace == old(trace)
      ensures available < 2 * |packaged| + 64 * 1024 * 1024 && old(Load(tools, files)).Missing? ==> r.Err?
      ensures old(Load(tools, files)).Broken? ==> r.Err?
      ensures old(Load(tools, files)).Missing? ==>
        (r.Ok? <==> available >= 2 * |packaged| + 64 * 1024 * 1024 && Copies(tools, old(files), env, version, packaged) && DocumentWrites(env))
      ensures old(Load(tools, files)).Missing? && r.Ok? ==>
        && Load(tools, files) == Loaded(r.value) && r.value.at == env.now && r.value.active.version == version && r.value.previous == NO_CORE
      ensures old(Load(tools, files)).Missing? && r.Ok? ==>
        Launch(tools, files) == Some(Program(CorePath(version), tools.digest(packaged), |packaged|))
    {
      var loaded := Load(tools, files);
      if loaded.Loaded? {
        return if loaded.activation.active.version == version then Ok(loaded.activation) else Err;
      }
      if loaded.Broken? || available < RequiredBytes(|packaged|) {
        return Err;
      }
      var artifact := Artifact(version, tools.digest(packaged), |packaged|);
      var stored := StoreCopy(artifact, packaged, env);
      WeakenLaunches(tools, trace, |old(trace)|, None, None, Some(Wanted(artifact)));
      if !stored {
        return Err;
      }
      var next := Installed(loaded, Target(artifact), env.now);
      InstallCommits(tools, files, artifact, env.now);
      ghost var mid := trace;
      var ok := Commit(next, env, version);
      JoinTraces(tools, mid, |old(trace)|, |mid|, trace, None, Some(Wanted(artifact)));
      return if ok then Ok(next) else Err;
    }

    /** Copy the packaged core beside its target, verify the copy and rename it. An empty core is never verified. */
    method StoreCopy(artifact: Artifact, packaged: string, env: Env) returns (ok: bool)
      requires Lawful(tools) && PlainName(artifact.version) && Kept(tools, files) && Load(tools, files).Missing?
      requires artifact.size == |packaged| && artifact.digest == tools.digest(packaged)
      modifies this
      ensures old(trace) <= trace
      ensures AlwaysLaunches(tools, trace, |old(trace)|, None, None)
      ensures Kept(tools, files) && Load(tools, files).Missing?
      ensures ok ==> Verified(tools, files, Target(artifact))
      ensures ok <==> Copies(tools, old(files), env, artifact.version, packaged)
    {
      if Verified(tools, files, Target(artifact)) {
        return true;
      }
      var path := CorePath(artifact.version);
      if path + ".adopt" in files || artifact.size == 0 {
        return false;
      }
      ghost var before, after := files, files[path := packaged];
      TempsAreApart(artifact.version);
      CorePathsAreDurable(artifact.version);
      ok := Replace(path + ".adopt", path, packaged, env, artifact.version);
      StoreThenLaunch(tools, before, after, artifact, packaged);
      PassesLaunch(tools, trace, |old(trace)|, before, after, artifact.version);
      TempsDoNotLaunch(tools, files, if ok then after else before, artifact.version);
      if ok {
        StoredVerifies(tools, before, files, artifact, packaged);
      }
    }

    /**
     An install and a rollback that both succeed give back the core that was active before,
     and name the installed one as the next rollback target.
     */
    method InstallThenRollback(artifact: Artifact, available: int, env: Env, later: Env)
      returns (installed: Result<Activation>, back: Result<Activation>)
      requires artifact.size > 0 && PlainName(artifact.version) && Lawful(tools)
      requires Kept(tools, files) && Safe(tools, files, artifact) && Launch(tools, files).Some?
      modifies this
      ensures installed.Ok? ==> (back.Ok? <==> DocumentWrites(later))
      ensures installed.Ok? && back.Ok? ==>
        && Launch(tools, files) == old(Launch(tools, files))
        && back.value.active == old(Load(tools, files)).activation.active
        && back.value.previous == Target(artifact)
        && CanRollBack(tools, files)
    {
      back := Err;
      installed := Install(artifact, available, env);
      if installed.Ok? {
        back := Rollback(later);
      }
    }

    /** Two rollbacks that both succeed give back the document, its timestamp aside. */
    method RollbackTwice(env: Env, later: Env) returns (once: Result<Activation>, twice: Result<Activation>)
      requires Lawful(tools) && Kept(tools, files) && Launch(tools, files).Some?
      modifies this
      ensures once.Ok? ==> (twice.Ok? <==> DocumentWrites(later))
      ensures once.Ok? && twice.Ok? ==>
        && Launch(tools, files) == old(Launch(tools, files))
        && twice.value == old(Load(tools, files)).activation.(at := later.now)
    {
      twice := Err;
      once := Rollback(env);
      if once.Ok? {
        twice := Rollback(later);
      }
    }
  }
}
