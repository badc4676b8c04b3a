/** The reference index service (spikes/search-backend-evaluation/zoektadapter/adapter.go:109-223): a manifest patched by change lists. */
module Indexer {
  import opened Text

  /** What the index knows: one digest per file, and how often it was written. */
  datatype Manifest = Manifest(generation: nat, files: map<string, string>)

  datatype Change = Change(path: string, deleted: bool)

  /** What reading a path gives; a path outside the map does not exist. */
  datatype Content = Readable(digest: string) | Unreadable

  type Disk = map<string, Content>

  /** normalizeRelative: cleaning is a parameter; None when the result leaves the project. */
  type Clean = string -> Option<string>

  // ---------------------------------------------------------------- applying a change list

  /** The manifest after the first change to each path, in order; None when a path or a file is refused. */
  function Patch(files: map<string, string>, disk: Disk, clean: Clean, changes: seq<Change>, seen: set<string>)
    : Option<map<string, string>>
    decreases |changes|
  {
    if |changes| == 0 then Some(files)
    else
      match clean(changes[0].path)
      case None => None
      case Some(name) =>
        if name in seen then Patch(files, disk, clean, changes[1..], seen)
        else if changes[0].deleted || name !in disk then Patch(files - {name}, disk, clean, changes[1..], seen + {name})
        else if disk[name].Unreadable? then None
        else Patch(files[name := disk[name].digest], disk, clean, changes[1..], seen + {name})
  }

  datatype Result<+T> = Ok(value: T) | Err

  function Applied(m: Manifest, disk: Disk, clean: Clean, changes: seq<Change>): Result<Manifest> {
    if |changes| == 0 then Ok(m)
    else
      match Patch(m.files, disk, clean, changes, {})
      case None => Err
      case Some(files) => Ok(Manifest(m.generation + 1, files))
  }

  // ---------------------------------------------------------------- the difference of two inventories

  /** The list names each path that differs exactly once, and says which of them are gone. */
  predicate Diff(changes: seq<Change>, files: map<string, string>, current: map<string, string>) {
    && (forall i, j :: 0 <= i < j < |changes| ==> changes[i].path != changes[j].path)
    && (forall i :: 0 <= i < |changes| ==>
          if changes[i].deleted then changes[i].path in files && changes[i].path !in current
          else changes[i].path in current && Differs(files, current, changes[i].path))
    && (forall p :: p in current && Differs(files, current, p) ==> Change(p, false) in changes)
    && (forall p :: p in files && p !in current ==> Change(p, true) in changes)
  }

  predicate Differs(files: map<string, string>, current: map<string, string>, p: string)
    requires p in current
  {
    !(p in files && files[p] == current[p])
  }

  // ---------------------------------------------------------------- the service

  class Service {
    /** The stored manifest; None before the first full build. */
    var stored: Option<Manifest>
    const clean: Clean

    constructor (clean: Clean)
      ensures stored == None && this.clean == clean
    {
      stored := None;
      this.clean := clean;
    }

    /**
     Rebuild from an inventory, reading each of its files again. It succeeds exactly when each
     can still be read and the builder does its part; a failure stores nothing.
     */
    method Full(current: map<string, string>, disk: Disk, built: bool) returns (r: Result<Manifest>)
      modifies this
      ensures r.Ok? ==> r.value == Manifest((if old(stored).Some? then old(stored).value.generation else 0) + 1, current)
      ensures r.Ok? <==> built && forall name :: name in current ==> name in disk && disk[name].Readable?
      ensures stored == if r.Ok? then Some(r.value) else old(stored)
    {
      var left := current.Keys;
      while left != {}
        invariant left <= current.Keys && stored == old(stored)
        invariant forall name :: name in current && name !in left ==> name in disk && disk[name].Readable?
        decreases |left|
      {
        var name :| name in left;
        left := left - {name};
        if name !in disk || disk[name].Unreadable? {
          return Err;
        }
      }
      if !built {
        return Err;
      }
      r := Ok(Manifest((if stored.Some? then stored.value.generation else 0) + 1, current));
      stored := Some(r.value);
    }

    /** A failure stores nothing. */
    method Apply(changes: seq<Change>, disk: Disk) returns (r: Result<Manifest>)
      modifies this
      ensures old(stored).None? ==> r.Err?
      ensures old(stored).Some? ==> r == Applied(old(stored).value, disk, clean, changes)
      ensures stored == if r.Ok? then Some(r.value) else old(stored)
    {
      if stored.None? {
        return Err;
      }
      var manifest := stored.value;
      if |changes| == 0 {
        return Ok(manifest);
      }
      var files, seen := manifest.files, {};
      for i := 0 to |changes|
        invariant stored == old(stored)
        invariant Patch(files, disk, clean, changes[i..], seen) == Patch(manifest.files, disk, clean, changes, {})
      {
        assert changes[i..][0] == changes[i] && changes[i..][1..] == changes[i + 1..];
        var name := clean(changes[i].path);
        if name.None? {
          return Err;
        }
        if name.value in seen {
          continue;
        }
        seen := seen + {name.value};
        if changes[i].deleted || name.value !in disk {
          files := files - {name.value};
          continue;
        }
        if disk[name.value].Unreadable? {
          return Err;
        }
        files := files[name.value := disk[name.value].digest];
      }
      r := Ok(Manifest(manifest.generation + 1, files));
      stored := Some(r.value);
    }

    /** Compare the manifest with an inventory, then apply what differs. */
    method Reconcile(current: map<string, string>, disk: Disk) returns (r: Result<Manifest>, changes: seq<Change>)
      modifies this
      ensures old(stored).None? ==> r.Err? && stored == old(stored)
      ensures old(stored).Some? ==>
        && Diff(changes, old(stored).value.files, current)
        && r == Applied(old(stored).value, disk, clean, changes)
      ensures stored == if r.Ok? then Some(r.value) else old(stored)
    {
      changes := [];
      if stored.None? {
        return Err, changes;
      }
      changes := Difference(stored.value.files, current);
      r := Apply(changes, disk);
    }

    /** Map iteration visits the names in any order, and the order does not matter. */
    method Difference(files: map<string, string>, current: map<string, string>) returns (changes: seq<Change>)
      ensures Diff(changes, files, current)
    {
      changes := [];
      var left := current.Keys;
      while left != {}
        invariant left <= current.Keys
        invariant forall i :: 0 <= i < |changes| ==>
          !changes[i].deleted && changes[i].path in current && changes[i].path !in left && Differs(files, current, changes[i].path)
        invariant forall i, j :: 0 <= i < j < |changes| ==> changes[i].path != changes[j].path
        invariant forall p :: p in current && p !in left && Differs(files, current, p) ==> Change(p, false) in changes
        decreases |left|
      {
        var name :| name in left;
        left := left - {name};
        if name !in files || files[name] != current[name] {
          changes := changes + [Change(name, false)];
        }
      }
      left := files.Keys;
      ghost var written := changes;
      while left != {}
        invariant left <= files.Keys && written <= changes
        invariant forall i :: |written| <= i < |changes| ==>
          changes[i].deleted && changes[i].path in files && changes[i].path !in current && changes[i].path !in left
        invariant forall i, j :: 0 <= i < j < |changes| ==> changes[i].path != changes[j].path
        invariant forall p :: p in files && p !in left && p !in current ==> Change(p, true) in changes
        decreases |left|
      {
        var name :| name in left;
        left := left - {name};
        if name !in current {
          changes := changes + [Change(name, true)];
        }
      }
    }
  }

  // ---------------------------------------------------------------- what a patch leaves

  /** The first change that names this file, or the length. */
  function FirstNaming(clean: Clean, changes: seq<Change>, name: string): (k: nat)
    ensures k <= |changes|
    ensures k < |changes| ==> clean(changes[k].path) == Some(name)
    ensures forall i :: 0 <= i < k ==> clean(changes[i].path) != Some(name)
  {
    if |changes| == 0 || clean(changes[0].path) == Some(name) then 0 else 1 + FirstNaming(clean, changes[1..], name)
  }

  /** What one file becomes: what the disk holds, unless its first change calls it deleted. */
  predicate Becomes(files: map<string, string>, r: map<string, string>, disk: Disk, clean: Clean, changes: seq<Change>, name: string) {
    var k := FirstNaming(clean, changes, name);
    if k == |changes| then (name in r <==> name in files) && (name in r ==> r[name] == files[name])
    else if changes[k].deleted || name !in disk then name !in r
    else disk[name].Readable? && name in r && r[name] == disk[name].digest
  }

  lemma {:induction false} SeenIsKept(files: map<string, string>, disk: Disk, clean: Clean, changes: seq<Change>,
                                      seen: set<string>, name: string)
    requires name in seen && Patch(files, disk, clean, changes, seen).Some?
    ensures var r := Patch(files, disk, clean, changes, seen).value;
            (name in r <==> name in files) && (name in r ==> r[name] == files[name])
    decreases |changes|
  {
    if |changes| > 0 {
      var first := clean(changes[0].path).value;
      if first in seen {
        SeenIsKept(files, disk, clean, changes[1..], seen, name);
      } else if changes[0].deleted || first !in disk {
        SeenIsKept(files - {first}, disk, clean, changes[1..], seen + {first}, name);
      } else {
        SeenIsKept(files[first := disk[first].digest], disk, clean, changes[1..], seen + {first}, name);
      }
    }
  }

  /** An applied change list leaves every named file as the disk has it and every other file alone; duplicates are ignored. */
  lemma {:induction false} PatchReadsTheDisk(files: map<string, string>, disk: Disk, clean: Clean, changes: seq<Change>,
                                             seen: set<string>, name: string)
    requires name !in seen && Patch(files, disk, clean, changes, seen).Some?
    ensures Becomes(files, Patch(files, disk, clean, changes, seen).value, disk, clean, changes, name)
    decreases |changes|
  {
    if |changes| > 0 {
      var first := clean(changes[0].path).value;
      var rest := changes[1..];
      if first in seen {
        PatchReadsTheDisk(files, disk, clean, rest, seen, name);
      } else {
        var next := if changes[0].deleted || first !in disk then files - {first} else files[first := disk[first].digest];
        if first == name {
          SeenIsKept(next, disk, clean, rest, seen + {first}, name);
        } else {
          PatchReadsTheDisk(next, disk, clean, rest, seen + {first}, name);
        }
      }
    }
  }

  // ---------------------------------------------------------------- what a patch refuses

  /** The change names no path inside the project, or is the first to name a file that is there and cannot be read. */
  predicate RefusedAt(disk: Disk, clean: Clean, changes: seq<Change>, seen: set<string>, i: int)
    requires 0 <= i < |changes|
  {
    match clean(changes[i].path)
    case None => true
    case Some(name) =>
      && name !in seen && FirstNaming(clean, changes, name) == i
      && !changes[i].deleted && name in disk && disk[name].Unreadable?
  }

  lemma FirstNamingTail(clean: Clean, changes: seq<Change>, name: string)
    requires |changes| > 0 && clean(changes[0].path) != Some(name)
    ensures FirstNaming(clean, changes, name) == 1 + FirstNaming(clean, changes[1..], name)
  {
  }

  lemma RefusedLater(disk: Disk, clean: Clean, changes: seq<Change>, seen: set<string>, i: nat)
    requires |changes| > 0 && clean(changes[0].path).Some? && 0 < i < |changes|
    ensures RefusedAt(disk, clean, changes, seen, i)
       <==> RefusedAt(disk, clean, changes[1..], seen + {clean(changes[0].path).value}, i - 1)
  {
    var first, rest := clean(changes[0].path).value, changes[1..];
    assert rest[i - 1] == changes[i];
    if clean(changes[i].path).Some? && clean(changes[i].path).value != first {
      FirstNamingTail(clean, changes, clean(changes[i].path).value);
    }
  }

  /** A change list is refused, whole, exactly when one of its changes is. */
  lemma {:induction false} RefusedExactly(files: map<string, string>, disk: Disk, clean: Clean, changes: seq<Change>, seen: set<string>)
    ensures Patch(files, disk, clean, changes, seen).None? <==>
              exists i :: 0 <= i < |changes| && RefusedAt(disk, clean, changes, seen, i)
    decreases |changes|
  {
    if |changes| > 0 && clean(changes[0].path).Some? && !RefusedAt(disk, clean, changes, seen, 0) {
      var name, rest := clean(changes[0].path).value, changes[1..];
      var next := if name in seen then files
                  else if changes[0].deleted || name !in disk then files - {name} else files[name := disk[name].digest];
      var seen' := seen + {name};
      assert name in seen ==> seen' == seen;
      assert Patch(files, disk, clean, changes, seen) == Patch(next, disk, clean, rest, seen');
      RefusedExactly(next, disk, clean, rest, seen');
      RefusedShifts(disk, clean, changes, seen);
    } else if |changes| > 0 {
      assert RefusedAt(disk, clean, changes, seen, 0);
    }
  }

  lemma RefusedShifts(disk: Disk, clean: Clean, changes: seq<Change>, seen: set<string>)
    requires |changes| > 0 && clean(changes[0].path).Some? && !RefusedAt(disk, clean, changes, seen, 0)
    ensures var later := seen + {clean(changes[0].path).value};
            (exists i :: 0 <= i < |changes| && RefusedAt(disk, clean, changes, seen, i))
            <==> exists i :: 0 <= i < |changes[1..]| && RefusedAt(disk, clean, changes[1..], later, i)
  {
    var later := seen + {clean(changes[0].path).value};
    if exists i :: 0 <= i < |changes| && RefusedAt(disk, clean, changes, seen, i) {
      var i :| 0 <= i < |changes| && RefusedAt(disk, clean, changes, seen, i);
      RefusedLater(disk, clean, changes, seen, i);
      assert RefusedAt(disk, clean, changes[1..], later, i - 1);
    }
    if exists i :: 0 <= i < |changes[1..]| && RefusedAt(disk, clean, changes[1..], later, i) {
      var i :| 0 <= i < |changes[1..]| && RefusedAt(disk, clean, changes[1..], later, i);
      RefusedLater(disk, clean, changes, seen, i + 1);
      assert RefusedAt(disk, clean, changes, seen, i + 1);
    }
  }

  // ---------------------------------------------------------------- reconciliation

  /** While nothing changes, reading a file gives what the inventory saw, and stored names are already clean. */
  ghost predicate Stable(files: map<string, string>, current: map<string, string>, disk: Disk, clean: Clean) {
    && (forall p :: p in current ==> clean(p) == Some(p) && p in disk && disk[p] == Readable(current[p]))
    && (forall p :: p in files ==> clean(p) == Some(p))
  }

  /** A list of clean paths that can all be read is never refused. */
  lemma {:induction false} PatchSucceeds(files: map<string, string>, disk: Disk, clean: Clean, changes: seq<Change>, seen: set<string>)
    requires forall i :: 0 <= i < |changes| ==> clean(changes[i].path) == Some(changes[i].path)
    requires forall i :: 0 <= i < |changes| ==>
      (changes[i].deleted || changes[i].path !in disk || disk[changes[i].path].Readable?)
    ensures Patch(files, disk, clean, changes, seen).Some?
    decreases |changes|
  {
    if |changes| > 0 {
      var first, rest := changes[0].path, changes[1..];
      assert forall i :: 0 <= i < |rest| ==> rest[i] == changes[i + 1];
      if first in seen {
        PatchSucceeds(files, disk, clean, rest, seen);
      } else if changes[0].deleted || first !in disk {
        PatchSucceeds(files - {first}, disk, clean, rest, seen + {first});
      } else {
        PatchSucceeds(files[first := disk[first].digest], disk, clean, rest, seen + {first});
      }
    }
  }

  lemma DiffPatchesOne(files: map<string, string>, current: map<string, string>, disk: Disk, clean: Clean,
                       changes: seq<Change>, r: map<string, string>, p: string)
    requires Diff(changes, files, current) && Stable(files, current, disk, clean)
    requires Becomes(files, r, disk, clean, changes, p)
    ensures (p in r <==> p in current) && (p in r ==> r[p] == current[p])
  {
    var k := FirstNaming(clean, changes, p);
    if k == |changes| {
      NotNamed(clean, changes, p, false);
      NotNamed(clean, changes, p, true);
    } else {
      assert changes[k].path == p;
    }
  }

  lemma NotNamed(clean: Clean, changes: seq<Change>, p: string, deleted: bool)
    requires FirstNaming(clean, changes, p) == |changes|
    ensures Change(p, deleted) in changes ==> clean(p) != Some(p)
  {
  }

  /**
   Over a stable workspace, reconciling from any manifest makes it the inventory; the
   generation rises by one exactly when something differed.
   */
  lemma ReconcileConverges(m: Manifest, current: map<string, string>, disk: Disk, clean: Clean, changes: seq<Change>)
    requires Diff(changes, m.files, current) && Stable(m.files, current, disk, clean)
    ensures Applied(m, disk, clean, changes)
         == Ok(Manifest(if |changes| == 0 then m.generation else m.generation + 1, current))
    ensures |changes| == 0 <==> m.files == current
  {
    forall i | 0 <= i < |changes|
      ensures clean(changes[i].path) == Some(changes[i].path)
      ensures changes[i].deleted || changes[i].path !in disk || disk[changes[i].path].Readable?
    {
    }
    PatchSucceeds(m.files, disk, clean, changes, {});
    var r := Patch(m.files, disk, clean, changes, {}).value;
    forall p ensures (p in r <==> p in current) && (p in r ==> r[p] == current[p]) {
      PatchReadsTheDisk(m.files, disk, clean, changes, {}, p);
      DiffPatchesOne(m.files, current, disk, clean, changes, r, p);
    }
    assert r == current;
    if m.files == current && |changes| > 0 { NothingDiffers(changes, current); }
  }

  lemma SomethingDiffers(changes: seq<Change>, current: map<string, string>)
    requires |changes| > 0
    ensures !Diff(changes, current, current)
  {
    var first := changes[0].path;
  }

  /** Comparing an inventory with itself finds nothing. */
  lemma NothingDiffers(changes: seq<Change>, current: map<string, string>)
    requires Diff(changes, current, current)
    ensures |changes| == 0
  {
    if |changes| > 0 { SomethingDiffers(changes, current); }
  }

  /** A second reconciliation of an unchanged workspace finds no change and keeps the generation. */
  lemma SecondReconcileIsIdle(m: Manifest, current: map<string, string>, disk: Disk, clean: Clean, first: seq<Change>, second: seq<Change>)
    requires Diff(first, m.files, current) && Stable(m.files, current, disk, clean)
    requires Applied(m, disk, clean, first).Ok?
    requires Diff(second, Applied(m, disk, clean, first).value.files, current)
    ensures second == [] && Applied(Applied(m, disk, clean, first).value, disk, clean, second) == Applied(m, disk, clean, first)
  {
    ReconcileConverges(m, current, disk, clean, first);
    NothingDiffers(second, current);
  }
}
