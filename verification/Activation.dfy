/**
 Versioned host activation (internal/installation/activation.go): one document names the
 active core and its rollback target, and every change of it can be cut short by a crash.

 Contents are texts. Digests, JSON and the cleaning of paths are parameters; paths are
 relative to the home.
 */
module Activation {
  import opened Text

  datatype Core = Core(version: string, executable: string, digest: string, size: int)

  const NO_CORE := Core("", "", "", 0)

  datatype Activation = Activation(schema: nat, active: Core, previous: Core, at: string)

  /** SHA-256, JSON and filepath.Clean, of which only the laws in Lawful are used. */
  datatype Tools = Tools(digest: string -> string, encode: Activation -> string, decode: string -> Option<Activation>,
                         clean: string -> string)

  /** What is run: the file, with the identity it was verified to have. */
  datatype Program = Program(path: string, digest: string, size: int)

  function ProgramOf(t: Tools, c: Core): Program { Program(t.clean(c.executable), c.digest, c.size) }

  type Files = map<string, string>

  const DOCUMENT := "installation.json"
  const TEMPORARY := ".installation.json.tmp"
  const SCHEMA_VERSION := 1
  const DISK_MARGIN := 67108864

  /** A second copy for verification and rollback, and a fixed margin. */
  function RequiredBytes(download: int): int { if download < 0 then 0 else download * 2 + DISK_MARGIN }

  function CorePath(version: string): string { "versions/" + version + "/lctk-core" }

  predicate HexDigit(c: char) { '0' <= c <= '9' || 'a' <= c <= 'f' }

  predicate ValidDigest(d: string) { |d| == 64 && forall i :: 0 <= i < |d| ==> HexDigit(d[i]) }

  /** The path of an executable named by the document, if it stays inside the home. */
  function Resolve(t: Tools, relative: string): Option<string> {
    if relative == "" || HasPrefix(relative, "/") then None
    else
      var clean := t.clean(relative);
      if clean == ".." || HasPrefix(clean, "../") then None else Some(clean)
  }

  predicate Verified(t: Tools, files: Files, c: Core) { Holds(t, files, ProgramOf(t, c)) }

  predicate Holds(t: Tools, files: Files, p: Program) {
    p.size > 0 && ValidDigest(p.digest) && p.path in files && |files[p.path]| == p.size && t.digest(files[p.path]) == p.digest
  }

  datatype Loaded = Missing | Broken | Loaded(activation: Activation)

  predicate ValidActivation(t: Tools, a: Activation) {
    && a.schema == SCHEMA_VERSION && a.active.version != "" && a.active.size > 0 && ValidDigest(a.active.digest)
    && Resolve(t, a.active.executable).Some?
    && (a.previous != NO_CORE ==>
      && a.previous.version != "" && a.previous.executable != "" && a.previous.size > 0
      && ValidDigest(a.previous.digest) && Resolve(t, a.previous.executable).Some?)
  }

  function Load(t: Tools, files: Files): Loaded {
    if DOCUMENT !in files then Missing
    else
      match t.decode(files[DOCUMENT])
      case None => Broken
      case Some(a) => if ValidActivation(t, a) then Loaded(a) else Broken
  }

  /** What the launcher runs: the active core, resolved and verified. */
  function Launch(t: Tools, files: Files): Option<Program> {
    var l := Load(t, files);
    if l.Loaded? && Verified(t, files, l.activation.active) then Some(ProgramOf(t, l.activation.active)) else None
  }

  // ---------------------------------------------------------------- what is refused

  /** A path that stays inside the home: relative, and not climbing out by its first component. */
  predicate Inside(path: string) { path != "" && path[0] != '/' && SplitOn(path, '/')[0] != ".." }

  /** The first component of a path, up to its first slash. */
  lemma {:induction false} FirstComponent(path: string)
    ensures var first := SplitOn(path, '/')[0];
            first <= path && (|first| == |path| || path[|first|] == '/')
    decreases |path|
  {
    if path != "" && path[0] != '/' {
      FirstComponent(path[1..]);
      assert path == [path[0]] + path[1..];
    }
  }

  lemma ClimbingPath(path: string)
    requires path != "" && path != ".." && !HasPrefix(path, "../")
    ensures SplitOn(path, '/')[0] != ".."
  {
    FirstComponent(path);
    assert "../"[0] == '.' && "../"[1] == '.' && "../"[2] == '/';
  }

  /** What launches is a verified file inside the home, named by a document of this schema whose entries are complete. */
  lemma LaunchStaysInside(t: Tools, files: Files)
    requires Lawful(t) && Launch(t, files).Some?
    ensures var p := Launch(t, files).value;
            Inside(p.path) && p.path in files && |files[p.path]| == p.size > 0 && t.digest(files[p.path]) == p.digest
    ensures var l := Load(t, files);
            && l.Loaded? && t.decode(files[DOCUMENT]) == Some(l.activation) && l.activation.schema == 1
            && l.activation.active.version != ""
            && (l.activation.previous == NO_CORE || (l.activation.previous.version != "" && l.activation.previous.size > 0))
  {
    var active := Load(t, files).activation.active;
    assert Resolve(t, active.executable).Some?;
    ClimbingPath(t.clean(active.executable));
  }

  /** An executable's path that is empty, absolute, or climbs out of the home once cleaned. */
  predicate Escapes(t: Tools, path: string) {
    path == "" || HasPrefix(path, "/") || t.clean(path) == ".." || HasPrefix(t.clean(path), "../")
  }

  predicate Incomplete(t: Tools, c: Core) {
    c.version == "" || c.size <= 0 || !ValidDigest(c.digest) || Escapes(t, c.executable)
  }

  /** A document is loaded exactly when it is of this schema, its active core is complete, and so is a previous one if it names any. */
  lemma LoadsExactly(t: Tools, files: Files)
    ensures DOCUMENT !in files ==> Load(t, files).Missing?
    ensures DOCUMENT in files ==>
              match t.decode(files[DOCUMENT])
              case None => Load(t, files).Broken?
              case Some(a) =>
                Load(t, files) == if a.schema == 1 && !Incomplete(t, a.active) && (a.previous == NO_CORE || !Incomplete(t, a.previous))
                                  then Loaded(a) else Broken
  {
  }

  // ---------------------------------------------------------------- paths

  lemma CorePathInjective(a: string, b: string)
    requires CorePath(a) == CorePath(b)
    ensures a == b
  {
    var p := "versions/";
    assert CorePath(a)[|p|..|p| + |a|] == a && CorePath(b)[|p|..|p| + |b|] == b;
  }

  /** A version that is one component of a path, as every release version is. */
  predicate PlainName(version: string) {
    version != "" && version != "." && version != ".." && Omits(version, '/')
  }

  /** JSON round trips, a digest is sixty-four hexadecimal digits, and a core's path is clean. */
  ghost predicate Lawful(t: Tools) {
    && (forall a :: t.decode(t.encode(a)) == Some(a))
    && (forall s :: ValidDigest(t.digest(s)))
    && (forall v :: PlainName(v) ==> t.clean(CorePath(v)) == CorePath(v))
    && (forall p :: p != "" && !HasPrefix(p, "/") ==> t.clean(p) != "" && !HasPrefix(t.clean(p), "/"))
  }

  predicate Ends(p: string, suffix: string) { |suffix| <= |p| && p[|p| - |suffix|..] == suffix }

  /** A path that no step of the manager but the storing of a core writes. */
  predicate Durable(p: string) {
    p != DOCUMENT && p != TEMPORARY && !Ends(p, ".download") && !Ends(p, ".adopt")
  }

  lemma CorePathsAreDurable(version: string)
    ensures Durable(CorePath(version))
  {
    var p := CorePath(version);
    assert p[0] == 'v' && DOCUMENT[0] == 'i' && TEMPORARY[0] == '.';
    assert p[|p| - 1] == 'e' && ".download"[8] == 'd' && ".adopt"[5] == 't';
  }

  lemma CoreResolves(t: Tools, version: string)
    requires Lawful(t) && PlainName(version)
    ensures Resolve(t, CorePath(version)) == Some(CorePath(version))
  {
    var p := CorePath(version);
    assert p[0] == 'v' && "/"[0] == '/' && ".."[0] == '.' && "../"[0] == '.';
  }

  /** A core whose file is neither the document nor one of the manager's temporary files. */
  predicate Placed(t: Tools, c: Core) { Durable(t.clean(c.executable)) }

  /** What the document names is placed so; the paths need not be ones the manager wrote. */
  predicate Kept(t: Tools, files: Files) {
    var l := Load(t, files);
    l.Loaded? ==> Placed(t, l.activation.active) && (l.activation.previous != NO_CORE ==> Placed(t, l.activation.previous))
  }

  /** The two disks agree on every path but those. */
  ghost predicate Agree(d: Files, e: Files, except: set<string>) {
    forall p :: p !in except ==> (p in d <==> p in e) && (p in d ==> d[p] == e[p])
  }

  lemma AgreeLaunches(t: Tools, d: Files, e: Files, except: set<string>)
    requires Agree(d, e, except) && DOCUMENT !in except && Kept(t, e)
    requires forall p :: Durable(p) ==> p !in except
    ensures Load(t, d) == Load(t, e) && Launch(t, d) == Launch(t, e)
  {
    var l := Load(t, e);
    assert Load(t, d) == l;
    if l.Loaded? { assert t.clean(l.activation.active.executable) !in except; }
  }

  // ---------------------------------------------------------------- activations

  function ActiveCore(l: Loaded): Core { if l.Loaded? then l.activation.active else NO_CORE }

  /** The document an install writes: the new core active, the active one kept as its rollback target. */
  function Installed(l: Loaded, core: Core, at: string): Activation {
    Activation(SCHEMA_VERSION, core, ActiveCore(l), at)
  }

  function RolledBack(a: Activation, at: string): Activation {
    Activation(SCHEMA_VERSION, a.previous, a.active, at)
  }

  function WithDocument(t: Tools, files: Files, a: Activation): Files { files[DOCUMENT := t.encode(a)] }

  /** The rollback target exists and verifies. */
  predicate CanRollBack(t: Tools, files: Files) {
    var l := Load(t, files);
    l.Loaded? && l.activation.previous.executable != "" && Verified(t, files, l.activation.previous)
  }

  function Temps(version: string): set<string> {
    {TEMPORARY, CorePath(version) + ".download", CorePath(version) + ".adopt"}
  }

  lemma TempsAreApart(version: string)
    ensures DOCUMENT !in Temps(version)
    ensures forall p :: Durable(p) ==> p !in Temps(version)
  {
    var d, a := CorePath(version) + ".download", CorePath(version) + ".adopt";
    assert Ends(d, ".download") && Ends(a, ".adopt");
    assert d[0] == 'v' && a[0] == 'v' && DOCUMENT[0] == 'i' && TEMPORARY[0] == '.';
  }

  /** A disk that differs from a kept one only in temporary files launches the same core. */
  lemma TempsDoNotLaunch(t: Tools, d: Files, e: Files, version: string)
    requires Kept(t, e) && Agree(d, e, Temps(version))
    ensures Load(t, d) == Load(t, e) && Launch(t, d) == Launch(t, e) && Kept(t, d)
    ensures CanRollBack(t, d) == CanRollBack(t, e)
  {
    TempsAreApart(version);
    AgreeLaunches(t, d, e, Temps(version));
    var l := Load(t, e);
    if l.Loaded? && l.activation.previous != NO_CORE {
      assert t.clean(l.activation.previous.executable) !in Temps(version);
    }
  }

  /** Storing a core never touches the document. */
  lemma StoringKeepsDocument(t: Tools, files: Files, version: string, body: string)
    ensures var d := files[CorePath(version) := body]; Load(t, d) == Load(t, files) && (Kept(t, d) <==> Kept(t, files))
  {
    CorePathsAreDurable(version);
  }

  /**
   Exactly when storing a core leaves what launches as it was: it goes to another file than
   the active core's, or it is that very core again.
   */
  lemma StoringIsSafeExactly(t: Tools, files: Files, version: string, body: string)
    requires Launch(t, files).Some?
    ensures var active := ProgramOf(t, Load(t, files).activation.active);
            Launch(t, files[CorePath(version) := body]) == Launch(t, files) <==>
              active.path != CorePath(version) || (t.digest(body) == active.digest && |body| == active.size)
  {
    StoringKeepsDocument(t, files, version, body);
  }

  /**
   The same by version, for a document the manager wrote. Reinstalling the active version with
   other contents leaves a window in which nothing launches: the new core is stored and the
   document does not follow until later.
   */
  lemma ReinstallIsSafeExactly(t: Tools, files: Files, version: string, body: string)
    requires Lawful(t) && Launch(t, files).Some?
    requires var active := Load(t, files).activation.active; PlainName(active.version) && active.executable == CorePath(active.version)
    ensures var active := Load(t, files).activation.active;
            Launch(t, files[CorePath(version) := body]) == Launch(t, files) <==>
              version != active.version || (t.digest(body) == active.digest && |body| == active.size)
  {
    var active := Load(t, files).activation.active;
    StoringIsSafeExactly(t, files, version, body);
    if CorePath(version) == CorePath(active.version) {
      CorePathInjective(version, active.version);
    }
  }

  /** Once the document names a verified core, that core is what launches. */
  lemma DocumentLaunches(t: Tools, files: Files, a: Activation)
    requires Lawful(t) && ValidActivation(t, a) && Placed(t, a.active) && (a.previous != NO_CORE ==> Placed(t, a.previous))
    requires Verified(t, files, a.active)
    ensures var d := WithDocument(t, files, a);
            && Load(t, d) == Loaded(a) && Launch(t, d) == Some(ProgramOf(t, a.active)) && Kept(t, d)
            && (a.previous != NO_CORE && Verified(t, files, a.previous) ==> CanRollBack(t, d))
  {
    assert t.decode(t.encode(a)) == Some(a);
  }
}
