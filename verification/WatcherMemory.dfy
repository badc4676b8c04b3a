/** What the watcher registers and what it says: every report, and a directory from its creation to its removal. */
module WatcherMemory {
  // internal/fswatch/fswatch.go:231-309, 341-443. The registry is what tells a removed directory
  // from a removed file, so a directory that is met has to be in it, or its absence announced.

  import CJ = ChangeJournal
  import opened Protocol
  import opened Watcher

  // ---------------------------------------------------------------- the registry only grows while directories are met

  /** A path the rules let the watcher register. */
  predicate Acceptable(b: Bounds, path: string) { b.normalize(path) != "" && !b.excluded(b.normalize(path)) }

  /** From `r` to `s` nothing watched is lost, nothing is remembered anew, and a raised capacity notice was queued. */
  ghost predicate Extends(r: Registry, s: Registry) {
    && r.watched <= s.watched && s.removed <= r.removed && r.gaps <= s.gaps && r.events <= s.events
    && (s.gapped ==> r.gapped || s.gaps != [])
  }

  lemma EmittedExtends(r: Registry, b: Bounds, e: CJ.Event)
    ensures Extends(r, Emitted(r, b, e))
  {
  }

  lemma RegisteredExtends(r: Registry, b: Bounds, path: string, added: Added)
    requires b.gapCap > 0
    ensures Extends(r, RegisteredIn(r, b, path, added))
  {
  }

  lemma ExtendsOn(r: Registry, s: Registry, t: Registry)
    requires Extends(r, s) && Extends(s, t)
    ensures Extends(r, t)
  {
  }

  lemma AdoptedOneExtends(r: Registry, b: Bounds, base: string, v: Visit, at: nat)
    requires b.gapCap > 0
    ensures Extends(r, AdoptedOne(r, b, base, v, at))
  {
    if v.Subdirectory? {
      var s := RegisteredIn(r, b, v.path, v.added);
      RegisteredExtends(r, b, v.path, v.added);
      EmittedExtends(s, b, CJ.Event(v.path, CJ.Written, true, at));
      ExtendsOn(r, s, Emitted(s, b, CJ.Event(v.path, CJ.Written, true, at)));
    } else {
      EmittedExtends(r, b, CJ.Event(v.path, CJ.Written, false, at));
    }
  }

  lemma {:induction false} AdoptedExtends(r: Registry, b: Bounds, base: string, visits: seq<Visit>, at: nat)
    requires b.gapCap > 0
    ensures Extends(r, Adopted(r, b, base, visits, at))
  {
    if visits != [] {
      var n := |visits| - 1;
      var s := Adopted(r, b, base, visits[..n], at);
      AdoptedExtends(r, b, base, visits[..n], at);
      AdoptedOneExtends(s, b, base, visits[n], at);
      ExtendsOn(r, s, AdoptedOne(s, b, base, visits[n], at));
    }
  }

  // ---------------------------------------------------------------- a directory that is met is watched

  /**
   What has to hold once a directory was met: it is watched and no longer remembered as
   removed, or it had vanished, or a notice is queued, or the capacity notice was given before.
   */
  ghost predicate Accounted(r: Registry, s: Registry, b: Bounds, path: string, added: Added) {
    Acceptable(b, path) ==>
      || (b.normalize(path) in s.watched && b.normalize(path) !in s.removed)
      || added.Vanished? || s.gaps != [] || r.gapped
  }

  /** Registration, exactly: what is watched afterwards, and why an acceptable directory is not. */
  lemma RegisterIsExact(r: Registry, b: Bounds, path: string, added: Added)
    requires RegistryOk(r, b)
    ensures var p, s := b.normalize(path), RegisteredIn(r, b, path, added);
            && (forall w :: w in s.watched <==> w in r.watched || (w == p && Acceptable(b, path) && |r.watched| < b.limit && added.Registered?))
            && (forall w :: w in s.removed <==> w in r.removed && !(w == p && w in s.watched && w !in r.watched))
            && (Acceptable(b, path) && p !in r.watched && |r.gaps| < b.gapCap ==>
                  s.gaps == r.gaps + (if |r.watched| >= b.limit then (if r.gapped then [] else [Capacity])
                                      else if added.Refused? then [Unwatchable] else []))
            && s.events == r.events
  {
  }

  lemma RegisterAccounts(r: Registry, b: Bounds, path: string, added: Added)
    requires RegistryOk(r, b) && b.gapCap > 0
    ensures Accounted(r, RegisteredIn(r, b, path, added), b, path, added)
  {
    RegisterIsExact(r, b, path, added);
  }

  lemma AccountedLater(q: Registry, r: Registry, s: Registry, t: Registry, b: Bounds, path: string, added: Added)
    requires Accounted(r, s, b, path, added) && Extends(q, r) && Extends(r, s) && Extends(s, t)
    ensures Accounted(q, t, b, path, added)
  {
  }

  /** Every directory the walk visits is accounted for when it ends. */
  lemma {:induction false} WalkAccounts(r: Registry, b: Bounds, base: string, visits: seq<Visit>, at: nat)
    requires RegistryOk(r, b) && b.gapCap > 0
    ensures forall i :: 0 <= i < |visits| && visits[i].Subdirectory? && !b.excluded(visits[i].path) ==>
              Accounted(r, Adopted(r, b, base, visits, at), b, visits[i].path, visits[i].added)
  {
    if visits != [] {
      var n := |visits| - 1;
      var s, t := Adopted(r, b, base, visits[..n], at), Adopted(r, b, base, visits, at);
      WalkAccounts(r, b, base, visits[..n], at);
      AdoptedOk(r, b, base, visits[..n], at);
      AdoptedExtends(r, b, base, visits[..n], at);
      AdoptedOneExtends(s, b, base, visits[n], at);
      forall i | 0 <= i < |visits| && visits[i].Subdirectory? && !b.excluded(visits[i].path)
        ensures Accounted(r, t, b, visits[i].path, visits[i].added)
      {
        if i < n {
          assert visits[..n][i] == visits[i];
          assert Accounted(r, s, b, visits[i].path, visits[i].added);
        } else {
          OneAccounts(r, s, b, base, visits[n], at);
        }
      }
    }
  }

  lemma OneAccounts(r: Registry, s: Registry, b: Bounds, base: string, v: Visit, at: nat)
    requires RegistryOk(s, b) && b.gapCap > 0 && Extends(r, s) && v.Subdirectory? && !b.excluded(v.path)
    ensures Accounted(r, AdoptedOne(s, b, base, v, at), b, v.path, v.added)
  {
    var t := RegisteredIn(s, b, v.path, v.added);
    RegisterAccounts(s, b, v.path, v.added);
    RegisteredExtends(s, b, v.path, v.added);
    EmittedExtends(t, b, CJ.Event(v.path, CJ.Written, true, at));
    AccountedLater(r, s, t, AdoptedOne(s, b, base, v, at), b, v.path, v.added);
  }

  /** A created directory, and every directory already inside it, is accounted for by the step that reports it. */
  lemma CreationAccounts(r: Registry, b: Bounds, d: string, added: Added, inside: seq<Visit>, at: nat)
    requires RegistryOk(r, b) && b.gapCap > 0 && !b.excluded(d)
    ensures var s := Seen(r, b, Create(d, Directory(added, inside)), at);
            && Accounted(r, s, b, d, added)
            && forall i :: 0 <= i < |inside| && inside[i].Subdirectory? && !b.excluded(inside[i].path) ==>
                 Accounted(r, s, b, inside[i].path, inside[i].added)
  {
    var e := CJ.Event(d, CJ.Written, true, at);
    var registered := RegisteredIn(r, b, d, added);
    var told := Emitted(registered, b, e);
    var s := Adopted(told, b, d, inside, at);
    RegisterAccounts(r, b, d, added);
    RegisteredOk(r, b, d, added);
    RegisteredExtends(r, b, d, added);
    EmittedOk(registered, b, e);
    EmittedExtends(registered, b, e);
    AdoptedExtends(told, b, d, inside, at);
    ExtendsOn(registered, told, s);
    AccountedLater(r, r, registered, s, b, d, added);
    WalkAccounts(told, b, d, inside, at);
    ExtendsOn(r, registered, told);
    forall i | 0 <= i < |inside| && inside[i].Subdirectory? && !b.excluded(inside[i].path)
      ensures Accounted(r, s, b, inside[i].path, inside[i].added)
    {
      AccountedLater(r, told, s, s, b, inside[i].path, inside[i].added);
    }
  }

  // ---------------------------------------------------------------- from its creation to its removal

  /** The report takes `d` out of the registry: its own removal, or that of a directory above it. */
  predicate Unwatches(n: Native, d: string) { n.RemoveOrRename? && (n.relative == d || Under(n.relative, d)) }

  lemma StaysWatched(r: Registry, b: Bounds, n: Native, d: string, at: nat)
    requires d in r.watched && !Unwatches(n, d) && b.gapCap > 0
    ensures d in Seen(r, b, n, at).watched
  {
    match n
    case RemoveOrRename(p) => EmittedExtends(Forgotten(r, p), b, CJ.Event(p, CJ.Removed, true, at));
    case Create(p, found) =>
      if found.Directory? {
        var s := RegisteredIn(r, b, p, found.added);
        RegisteredExtends(r, b, p, found.added);
        EmittedExtends(s, b, CJ.Event(p, CJ.Written, true, at));
        AdoptedExtends(Emitted(s, b, CJ.Event(p, CJ.Written, true, at)), b, p, found.inside, at);
      }
    case Write(p) =>
  }

  lemma {:induction false} StaysWatchedAll(r: Registry, b: Bounds, natives: seq<Native>, d: string, at: nat)
    requires d in r.watched && b.gapCap > 0 && forall i :: 0 <= i < |natives| ==> !Unwatches(natives[i], d)
    ensures d in SeenAll(r, b, natives, at).watched
  {
    if natives != [] {
      var n := |natives| - 1;
      StaysWatchedAll(r, b, natives[..n], d, at);
      StaysWatched(SeenAll(r, b, natives[..n], at), b, natives[n], d, at);
    }
  }

  /**
   A directory created within the budget and later removed is reported as a directory, however
   much happens in between that does not remove it: so a consumer drops what was inside it.
   When the channel is full there is a notice instead.
   */
  lemma CreatedThenRemoved(r: Registry, b: Bounds, d: string, inside: seq<Visit>, between: seq<Native>, at: nat)
    requires RegistryOk(r, b) && b.gapCap > 0 && |r.watched| < b.limit
    requires d != "" && b.normalize(d) == d && !b.excluded(d)
    requires forall i :: 0 <= i < |between| ==> !Unwatches(between[i], d)
    ensures var created := Seen(r, b, Create(d, Directory(Registered, inside)), at);
            var later := SeenAll(created, b, between, at);
            var gone := Seen(later, b, RemoveOrRename(d), at);
            && d in created.watched && d in later.watched && d !in gone.watched && d in gone.removed
            && (if |later.events| < b.eventCap then gone.events == later.events + [CJ.Event(d, CJ.Removed, true, at)]
                else gone.gaps != [])
  {
    var e := CJ.Event(d, CJ.Written, true, at);
    var registered := RegisteredIn(r, b, d, Registered);
    RegisterIsExact(r, b, d, Registered);
    EmittedExtends(registered, b, e);
    AdoptedExtends(Emitted(registered, b, e), b, d, inside, at);
    StaysWatchedAll(Seen(r, b, Create(d, Directory(Registered, inside)), at), b, between, d, at);
  }

  // ---------------------------------------------------------------- what is said

  /** The event a native report becomes, if any: what is gone is a directory when the registry or the memory says so. */
  function ReportOf(r: Registry, n: Native, at: nat): seq<CJ.Event> {
    match n
    case RemoveOrRename(p) => [CJ.Event(p, CJ.Removed, p in r.watched || p in r.removed, at)]
    case Create(p, Gone) => [CJ.Event(p, CJ.Written, false, at)]
    case Create(p, Directory(_, _)) => [CJ.Event(p, CJ.Written, true, at)]
    case Create(p, Symlink) => []
    case Create(p, Regular) => [CJ.Event(p, CJ.Written, false, at)]
    case Write(p) => if p in r.watched then [] else [CJ.Event(p, CJ.Written, false, at)]
  }

  /** A report with no walk behind it. */
  predicate Single(n: Native) { !(n.Create? && n.found.Directory?) }

  /**
   What each report says, exactly. It comes first, ahead of anything a walk adds; where the
   channel is full a backlog notice stands for it. Symbolic links, writes against a watched
   directory and excluded paths are silent and change nothing.
   */
  lemma ReportsAreExact(r: Registry, b: Bounds, n: Native, at: nat)
    requires b.gapCap > 0
    ensures var s := Seen(r, b, n, at);
            && (b.excluded(n.relative) || ReportOf(r, n, at) == [] ==> s == r)
            && (!b.excluded(n.relative) && |r.events| < b.eventCap ==> r.events + ReportOf(r, n, at) <= s.events)
            && (!b.excluded(n.relative) && Single(n) && |r.events| < b.eventCap ==>
                  s.events == r.events + ReportOf(r, n, at) && s.gaps == r.gaps)
            && (!b.excluded(n.relative) && Single(n) && ReportOf(r, n, at) != [] && |r.events| >= b.eventCap ==>
                  s.events == r.events && s.gaps == r.gaps + (if |r.gaps| < b.gapCap then [Backlog] else []))
  {
    if n.Create? && n.found.Directory? {
      var s := RegisteredIn(r, b, n.relative, n.found.added);
      var t := Emitted(s, b, CJ.Event(n.relative, CJ.Written, true, at));
      assert s.events == r.events;
      AdoptedExtends(t, b, n.relative, n.found.inside, at);
    }
  }
}
