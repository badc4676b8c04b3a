/**
 The watcher's registry and its two bounded channels (internal/fswatch/fswatch.go). The
 protocol model takes from here that a removed directory is reported as a directory, however
 often its removal is reported.
 */
module Watcher {
  import CJ = ChangeJournal
  import opened Protocol

  const MAX_REMEMBERED := 4096

  datatype Added = Registered | Vanished | Refused

  /** One stop of the walk over a new directory, which starts at the directory itself. */
  datatype Visit = Subdirectory(path: string, added: Added) | File(path: string) | Other(path: string)

  /** What Lstat says about a created path, and for a directory what the walk of it visits. */
  datatype Found = Gone | Directory(added: Added, inside: seq<Visit>) | Symlink | Regular

  datatype Registry = Registry(
    watched: set<string>, removed: set<string>, gapped: bool, events: seq<CJ.Event>, gaps: seq<Notice>)

  /** The limits, and the path rules: normalize and excludedPath. */
  datatype Bounds = Bounds(limit: nat, eventCap: nat, gapCap: nat, normalize: string -> string, excluded: string -> bool)

  function Reported(r: Registry, b: Bounds, n: Notice): Registry {
    if |r.gaps| < b.gapCap then r.(gaps := r.gaps + [n]) else r
  }

  function Emitted(r: Registry, b: Bounds, e: CJ.Event): Registry {
    if |r.events| < b.eventCap then r.(events := r.events + [e]) else Reported(r, b, Backlog)
  }

  function RegisteredIn(r: Registry, b: Bounds, path: string, added: Added): Registry {
    var relative := b.normalize(path);
    if relative == "" || b.excluded(relative) || relative in r.watched then r
    else if |r.watched| >= b.limit then
      if r.gapped then r else Reported(r.(gapped := true), b, Capacity)
    else
      match added
      case Vanished => r
      case Refused => Reported(r, b, Unwatchable)
      case Registered => r.(watched := r.watched + {relative}, removed := r.removed - {relative})
  }

  predicate WasDirectory(r: Registry, relative: string) { relative in r.watched || relative in r.removed }

  /** rememberRemoval, unregister and dropSubtree together. */
  function Forgotten(r: Registry, relative: string): Registry {
    r.(removed := (if |r.removed| >= MAX_REMEMBERED then {} else r.removed) + {relative},
       watched := set w | w in r.watched && w != relative && !Under(relative, w))
  }

  function RemovalSeen(r: Registry, b: Bounds, relative: string, at: nat): Registry {
    var directory := WasDirectory(r, relative);
    Emitted(if directory then Forgotten(r, relative) else r, b, CJ.Event(relative, CJ.Removed, directory, at))
  }

  /** What is already inside a new directory is registered and reported. */
  function Adopted(r: Registry, b: Bounds, base: string, visits: seq<Visit>, at: nat): Registry {
    if visits == [] then r
    else AdoptedOne(Adopted(r, b, base, visits[..|visits| - 1], at), b, base, visits[|visits| - 1], at)
  }

  function AdoptedOne(r: Registry, b: Bounds, base: string, v: Visit, at: nat): Registry {
    if b.excluded(v.path) then r
    else
      match v
      case Subdirectory(p, added) =>
        var s := RegisteredIn(r, b, p, added);
        if p == base then s else Emitted(s, b, CJ.Event(p, CJ.Written, true, at))
      case File(p) => Emitted(r, b, CJ.Event(p, CJ.Written, false, at))
      case Other(_) => r
  }

  function CreationSeen(r: Registry, b: Bounds, relative: string, found: Found, at: nat): Registry {
    match found
    case Gone => Emitted(r, b, CJ.Event(relative, CJ.Written, false, at))
    case Directory(added, inside) =>
      Adopted(Emitted(RegisteredIn(r, b, relative, added), b, CJ.Event(relative, CJ.Written, true, at)), b, relative, inside, at)
    case Symlink => r
    case Regular => Emitted(r, b, CJ.Event(relative, CJ.Written, false, at))
  }

  /** A write reported against a directory says nothing about content. */
  function WriteSeen(r: Registry, b: Bounds, relative: string, at: nat): Registry {
    if relative in r.watched then r else Emitted(r, b, CJ.Event(relative, CJ.Written, false, at))
  }

  datatype Native =
    | RemoveOrRename(relative: string)
    | Create(relative: string, found: Found)
    | Write(relative: string)

  function Seen(r: Registry, b: Bounds, n: Native, at: nat): Registry {
    if b.excluded(n.relative) then r
    else
      match n
      case RemoveOrRename(p) => RemovalSeen(r, b, p, at)
      case Create(p, found) => CreationSeen(r, b, p, found, at)
      case Write(p) => WriteSeen(r, b, p, at)
  }

  function SeenAll(r: Registry, b: Bounds, natives: seq<Native>, at: nat): Registry {
    if natives == [] then r
    else Seen(SeenAll(r, b, natives[..|natives| - 1], at), b, natives[|natives| - 1], at)
  }

  ghost predicate RegistryOk(r: Registry, b: Bounds) {
    |r.watched| <= b.limit && r.watched !! r.removed && |r.removed| <= MAX_REMEMBERED
  }

  lemma SubsetSize<T>(a: set<T>, b: set<T>)
    requires a <= b
    ensures |a| <= |b|
  {
    if a != b {
      assert |b - a| > 0 && |b| == |a| + |b - a| by { assert b == a + (b - a); }
    }
  }

  lemma ForgottenOk(r: Registry, b: Bounds, relative: string)
    requires RegistryOk(r, b)
    ensures RegistryOk(Forgotten(r, relative), b)
  {
    SubsetSize(Forgotten(r, relative).watched, r.watched);
  }

  lemma AddOneDropOne<T>(a: set<T>, c: set<T>, x: T)
    requires a !! c && x !in a
    ensures |a + {x}| == |a| + 1 && |c - {x}| <= |c| && a + {x} !! c - {x}
  {
    SubsetSize(c - {x}, c);
  }

  lemma RegisteredOk(r: Registry, b: Bounds, p: string, added: Added)
    requires RegistryOk(r, b)
    ensures RegistryOk(RegisteredIn(r, b, p, added), b)
  {
    if b.normalize(p) !in r.watched { AddOneDropOne(r.watched, r.removed, b.normalize(p)); }
  }

  lemma EmittedOk(r: Registry, b: Bounds, e: CJ.Event)
    requires RegistryOk(r, b)
    ensures RegistryOk(Emitted(r, b, e), b)
  {
  }

  lemma AdoptedOneOk(r: Registry, b: Bounds, base: string, v: Visit, at: nat)
    requires RegistryOk(r, b)
    ensures RegistryOk(AdoptedOne(r, b, base, v, at), b)
  {
    if v.Subdirectory? { RegisteredOk(r, b, v.path, v.added); }
  }

  lemma {:induction false} AdoptedOk(r: Registry, b: Bounds, base: string, visits: seq<Visit>, at: nat)
    requires RegistryOk(r, b)
    ensures RegistryOk(Adopted(r, b, base, visits, at), b)
  {
    if visits != [] {
      var n := |visits| - 1;
      AdoptedOk(r, b, base, visits[..n], at);
      AdoptedOneOk(Adopted(r, b, base, visits[..n], at), b, base, visits[n], at);
    }
  }

  lemma CreatedOk(r: Registry, b: Bounds, p: string, found: Found, at: nat)
    requires RegistryOk(r, b)
    ensures RegistryOk(CreationSeen(r, b, p, found, at), b)
  {
    match found
    case Gone => EmittedOk(r, b, CJ.Event(p, CJ.Written, false, at));
    case Directory(added, inside) =>
      RegisteredOk(r, b, p, added);
      var s := RegisteredIn(r, b, p, added);
      EmittedOk(s, b, CJ.Event(p, CJ.Written, true, at));
      AdoptedOk(Emitted(s, b, CJ.Event(p, CJ.Written, true, at)), b, p, inside, at);
    case Symlink =>
    case Regular => EmittedOk(r, b, CJ.Event(p, CJ.Written, false, at));
  }

  lemma SeenOk(r: Registry, b: Bounds, n: Native, at: nat)
    requires RegistryOk(r, b)
    ensures RegistryOk(Seen(r, b, n, at), b)
  {
    match n
    case RemoveOrRename(p) => ForgottenOk(r, b, p);
    case Create(p, found) => CreatedOk(r, b, p, found, at);
    case Write(p) =>
  }

  /** The budget is never exceeded, and a directory is never both watched and remembered as gone. */
  lemma {:induction false} RegistryStaysOk(r: Registry, b: Bounds, natives: seq<Native>, at: nat)
    requires RegistryOk(r, b)
    ensures RegistryOk(SeenAll(r, b, natives, at), b)
  {
    if natives != [] {
      var n := |natives| - 1;
      RegistryStaysOk(r, b, natives[..n], at);
      SeenOk(SeenAll(r, b, natives[..n], at), b, natives[n], at);
    }
  }

  /** A creation, or the walk it starts, may register `d`. */
  predicate Registers(b: Bounds, n: Native, d: string) {
    n.Create? && (b.normalize(n.relative) == d || (n.found.Directory? && Visits(b, n.found.inside, d)))
  }

  predicate Visits(b: Bounds, visits: seq<Visit>, d: string) {
    exists i :: 0 <= i < |visits| && visits[i].Subdirectory? && b.normalize(visits[i].path) == d
  }

  /** Native reports that neither register `d` again nor fill the memory of removals. */
  predicate Leaves(r: Registry, b: Bounds, natives: seq<Native>, d: string, at: nat) {
    forall i :: 0 <= i < |natives| ==>
      && !Registers(b, natives[i], d)
      && |SeenAll(r, b, natives[..i], at).removed| < MAX_REMEMBERED
  }

  lemma SeenRemembers(r: Registry, b: Bounds, n: Native, d: string, at: nat)
    requires d in r.removed && |r.removed| < MAX_REMEMBERED && !Registers(b, n, d)
    ensures d in Seen(r, b, n, at).removed
  {
    match n
    case RemoveOrRename(p) => assert Emitted(r, b, CJ.Event(p, CJ.Removed, WasDirectory(r, p), at)).removed == r.removed;
    case Create(p, found) => CreationRemembers(r, b, p, found, d, at);
    case Write(p) =>
  }

  lemma CreationRemembers(r: Registry, b: Bounds, p: string, found: Found, d: string, at: nat)
    requires d in r.removed && !Registers(b, Create(p, found), d)
    ensures d in CreationSeen(r, b, p, found, at).removed
  {
    if found.Directory? {
      RegisteredRemembers(r, b, p, found.added, d);
      var s := Emitted(RegisteredIn(r, b, p, found.added), b, CJ.Event(p, CJ.Written, true, at));
      assert d in s.removed;
      AdoptedRemembers(s, b, p, found.inside, d, at);
    }
  }

  lemma RegisteredRemembers(r: Registry, b: Bounds, p: string, added: Added, d: string)
    requires d in r.removed && b.normalize(p) != d
    ensures d in RegisteredIn(r, b, p, added).removed
  {
  }

  lemma {:induction false} AdoptedRemembers(r: Registry, b: Bounds, base: string, visits: seq<Visit>, d: string, at: nat)
    requires d in r.removed && !Visits(b, visits, d)
    ensures d in Adopted(r, b, base, visits, at).removed
  {
    if visits != [] {
      var n := |visits| - 1;
      assert forall i :: 0 <= i < n ==> visits[..n][i] == visits[i];
      AdoptedRemembers(r, b, base, visits[..n], d, at);
      OneRemembers(Adopted(r, b, base, visits[..n], at), b, base, visits[n], d, at);
    }
  }

  lemma OneRemembers(r: Registry, b: Bounds, base: string, v: Visit, d: string, at: nat)
    requires d in r.removed && (v.Subdirectory? ==> b.normalize(v.path) != d)
    ensures d in AdoptedOne(r, b, base, v, at).removed
  {
    if v.Subdirectory? { RegisteredRemembers(r, b, v.path, v.added, d); }
  }

  lemma {:induction false} RemovalIsRemembered(r: Registry, b: Bounds, natives: seq<Native>, d: string, at: nat)
    requires d in r.removed && Leaves(r, b, natives, d, at)
    ensures d in SeenAll(r, b, natives, at).removed
  {
    if natives != [] {
      var n := |natives| - 1;
      assert forall i :: 0 <= i < n ==> natives[..n][i] == natives[i] && natives[..n][..i] == natives[..i];
      RemovalIsRemembered(r, b, natives[..n], d, at);
      SeenRemembers(SeenAll(r, b, natives[..n], at), b, natives[n], d, at);
    }
  }

  /**
   However many times, and however late, the removal of one watched directory is reported,
   every report says "directory": the first leaves nothing watched beneath it, and a later
   one is answered from memory, as long as the directory has not come back and fewer than
   4096 removals are remembered.
   */
  lemma EveryRemovalReportSaysDirectory(r: Registry, b: Bounds, natives: seq<Native>, d: string, at: nat)
    requires d in r.watched
    requires Leaves(RemovalSeen(r, b, d, at), b, natives, d, at)
    ensures var first := RemovalSeen(r, b, d, at);
            var last := SeenAll(first, b, natives, at);
            && (forall w :: w in first.watched ==> w != d && !Under(d, w))
            && WasDirectory(last, d)
            && (|last.events| < b.eventCap ==>
                  RemovalSeen(last, b, d, at).events == last.events + [CJ.Event(d, CJ.Removed, true, at)])
  {
    RemovalIsRemembered(RemovalSeen(r, b, d, at), b, natives, d, at);
  }

  /** The event a stop of the walk is reported by. */
  function EventFor(base: string, v: Visit, at: nat): seq<CJ.Event> {
    match v
    case Subdirectory(p, _) => if p == base then [] else [CJ.Event(p, CJ.Written, true, at)]
    case File(p) => [CJ.Event(p, CJ.Written, false, at)]
    case Other(_) => []
  }

  predicate Told(s: Registry, es: seq<CJ.Event>) { s.gaps != [] || forall i :: 0 <= i < |es| ==> es[i] in s.events }

  /** The walk only adds to the channels, and tells of everything it visits. */
  lemma {:induction false} WalkIsTold(r: Registry, b: Bounds, base: string, visits: seq<Visit>, at: nat)
    requires b.gapCap > 0
    ensures var s := Adopted(r, b, base, visits, at);
            && r.events <= s.events && r.gaps <= s.gaps
            && forall i :: 0 <= i < |visits| && !b.excluded(visits[i].path) ==> Told(s, EventFor(base, visits[i], at))
  {
    if visits != [] {
      var n := |visits| - 1;
      WalkIsTold(r, b, base, visits[..n], at);
      var s, s' := Adopted(r, b, base, visits[..n], at), Adopted(r, b, base, visits, at);
      OneIsTold(s, b, base, visits[n], at);
      forall i | 0 <= i < |visits| && !b.excluded(visits[i].path) ensures Told(s', EventFor(base, visits[i], at)) {
        if i < n { assert visits[..n][i] == visits[i]; }
      }
    }
  }

  lemma OneIsTold(s: Registry, b: Bounds, base: string, v: Visit, at: nat)
    requires b.gapCap > 0
    ensures var s' := AdoptedOne(s, b, base, v, at);
            s.events <= s'.events && s.gaps <= s'.gaps && (!b.excluded(v.path) ==> Told(s', EventFor(base, v, at)))
  {
  }

  /**
   Nothing the watcher sees is dropped in silence. A report is delivered or a notice is
   queued, and so is every directory and file already inside a new directory, which closes
   the window between its creation and its watch.
   */
  lemma DeliveredOrNoticed(r: Registry, b: Bounds, n: Native, at: nat)
    requires b.gapCap > 0 && !b.excluded(n.relative)
    ensures var s := Seen(r, b, n, at);
            && r.events <= s.events
            && (s.events != r.events || s.gaps != [] ||
                (n.Write? && n.relative in r.watched) || (n.Create? && n.found.Symlink?))
            && (n.Create? && n.found.Directory? ==>
                  forall i :: 0 <= i < |n.found.inside| && !b.excluded(n.found.inside[i].path) ==>
                    Told(s, EventFor(n.relative, n.found.inside[i], at)))
  {
    if n.Create? && n.found.Directory? {
      var s := Emitted(RegisteredIn(r, b, n.relative, n.found.added), b, CJ.Event(n.relative, CJ.Written, true, at));
      WalkIsTold(s, b, n.relative, n.found.inside, at);
    }
  }

  // ---------------------------------------------------------------- the class

  class Watcher {
    const bounds: Bounds
    var watched: set<string>
    var removedDirectories: set<string>
    var capacityGapped: bool
    var events: seq<CJ.Event>
    var gaps: seq<Notice>

    function Value(): Registry reads this { Registry(watched, removedDirectories, capacityGapped, events, gaps) }

    constructor (bounds: Bounds)
      ensures Value() == Registry({}, {}, false, [], []) && this.bounds == bounds
    {
      this.bounds := bounds;
      watched, removedDirectories, capacityGapped, events, gaps := {}, {}, false, [], [];
    }

    method ReportGap(n: Notice)
      modifies this
      ensures Value() == Reported(old(Value()), bounds, n)
    {
      if |gaps| < bounds.gapCap {
        gaps := gaps + [n];
      }
    }

    method Emit(e: CJ.Event)
      modifies this
      ensures Value() == Emitted(old(Value()), bounds, e)
    {
      if |events| < bounds.eventCap {
        events := events + [e];
      } else {
        ReportGap(Backlog);
      }
    }

    method Register(path: string, added: Added)
      modifies this
      ensures Value() == RegisteredIn(old(Value()), bounds, path, added)
    {
      var relative := bounds.normalize(path);
      if relative == "" {
        return;
      }
      if bounds.excluded(relative) {
        return;
      }
      if relative in watched {
        return;
      }
      if |watched| >= bounds.limit {
        var first := !capacityGapped;
        capacityGapped := true;
        if first {
          ReportGap(Capacity);
        }
        return;
      }
      if added.Vanished? {
        return;
      }
      if added.Refused? {
        ReportGap(Unwatchable);
        return;
      }
      watched := watched + {relative};
      removedDirectories := removedDirectories - {relative};
    }

    method RememberRemoval(relative: string)
      modifies this`removedDirectories
      ensures removedDirectories ==
                (if |old(removedDirectories)| >= MAX_REMEMBERED then {} else old(removedDirectories)) + {relative}
    {
      if |removedDirectories| >= MAX_REMEMBERED {
        removedDirectories := {};
      }
      removedDirectories := removedDirectories + {relative};
    }

    method DropSubtree(relative: string)
      modifies this`watched
      ensures watched == set w | w in old(watched) && !Under(relative, w)
    {
      var unvisited := watched;
      var stale: set<string> := {};
      while unvisited != {}
        invariant unvisited <= watched
        invariant stale == set w | w in watched - unvisited && Under(relative, w)
        decreases |unvisited|
      {
        var name :| name in unvisited;
        if Under(relative, name) {
          stale := stale + {name};
        }
        unvisited := unvisited - {name};
      }
      watched := watched - stale;
    }

    method TranslateRemoval(relative: string, at: nat)
      modifies this
      ensures Value() == RemovalSeen(old(Value()), bounds, relative, at)
    {
      var directory := relative in watched || relative in removedDirectories;
      if directory {
        RememberRemoval(relative);
        watched := watched - {relative};
        DropSubtree(relative);
        assert Value() == Forgotten(old(Value()), relative);
      }
      Emit(CJ.Event(relative, CJ.Removed, directory, at));
    }

    method TranslateCreation(relative: string, found: Found, at: nat)
      modifies this
      ensures Value() == CreationSeen(old(Value()), bounds, relative, found, at)
    {
      if found.Directory? {
        Register(relative, found.added);
        Emit(CJ.Event(relative, CJ.Written, true, at));
        Adopt(relative, found.inside, at);
      } else if !found.Symlink? {
        Emit(CJ.Event(relative, CJ.Written, false, at));
      }
    }

    method Adopt(base: string, visits: seq<Visit>, at: nat)
      modifies this
      ensures Value() == Adopted(old(Value()), bounds, base, visits, at)
    {
      for i := 0 to |visits|
        invariant Value() == Adopted(old(Value()), bounds, base, visits[..i], at)
      {
        assert visits[..i + 1][..i] == visits[..i];
        var v := visits[i];
        if bounds.excluded(v.path) {
          continue;
        }
        if v.Subdirectory? {
          Register(v.path, v.added);
          if v.path != base {
            Emit(CJ.Event(v.path, CJ.Written, true, at));
          }
        } else if v.File? {
          Emit(CJ.Event(v.path, CJ.Written, false, at));
        }
      }
      assert visits[..|visits|] == visits;
    }

    method TranslateWrite(relative: string, at: nat)
      modifies this
      ensures Value() == WriteSeen(old(Value()), bounds, relative, at)
    {
      if relative in watched {
        return;
      }
      Emit(CJ.Event(relative, CJ.Written, false, at));
    }
  }
}
