/** The change journal (internal/changejournal/journal.go): what was observed of one project, and how far a consumer has caught up. */
module ChangeJournal {
  // The operations are given twice: as functions on a journal value, which the protocol
  // model and the run theorems use, and as the methods of class `Journal`, which update
  // fields in place and are proved to compute those functions.

  import opened Text

  datatype Kind = Written | Removed

  datatype Event = Event(path: string, kind: Kind, directory: bool, at: nat)

  datatype Entry = Entry(num: nat, path: string, kind: Kind, directory: bool, at: nat)

  datatype Gap = Gap(reason: string, at: nat)

  datatype Mark = Mark(sequence: nat, gapSeq: nat)

  const REASON_STARTED := "observation_started"
  const REASON_UNREADABLE := "journal_unreadable"
  const REASON_BULK := "bulk_change"
  const SCHEMA_VERSION := 1

  /** The journal as a value. Instants are numbers; 0 is Go's zero time. */
  datatype State = State(
    projectID: string,
    sequence: nat,
    checkpoint: nat,
    generation: nat,
    gapSeq: nat,
    gap: Option<Gap>,
    pending: map<string, Entry>,
    lastEventAt: nat)
  {
    function TakeMark(): Mark { Mark(sequence, gapSeq) }
  }

  /** What reading the stored document can yield. */
  datatype Document =
    | Absent
    | Unreadable
    | Stored(schemaVersion: nat, meta: State, entries: seq<Entry>)

  function Empty(projectID: string): State {
    State(projectID, 0, 0, 0, 0, None, map[], 0)
  }

  /** Record ignores an event whose trimmed path names nothing inside the project. */
  predicate Accepted(e: Event) {
    var p := TrimSpace(e.path);
    p != "" && p != "."
  }

  /** The observation as the journal keeps it, under its trimmed path. */
  function Observed(e: Event): Event {
    e.(path := TrimSpace(e.path))
  }

  function EntryFor(num: nat, e: Event): Entry {
    Entry(num, e.path, e.kind, e.directory, e.at)
  }

  function Put(s: State, e: Event): State {
    s.(sequence := s.sequence + 1,
       pending := s.pending[e.path := EntryFor(s.sequence + 1, e)],
       lastEventAt := if e.at > s.lastEventAt then e.at else s.lastEventAt)
  }

  function RecordOne(s: State, e: Event): State {
    if Accepted(e) then Put(s, Observed(e)) else s
  }

  function RecordEach(s: State, events: seq<Event>): State {
    if events == [] then s
    else RecordOne(RecordEach(s, events[..|events| - 1]), events[|events| - 1])
  }

  function MarkGap(s: State, reason: string, at: nat, now: nat): State {
    s.(gapSeq := s.gapSeq + 1,
       gap := if s.gap.Some? then s.gap else Some(Gap(reason, if at == 0 then now else at)))
  }

  /** Past the bound the pending list is dropped whole and the change becomes a gap. */
  function Bounded(s: State, maxPending: nat, now: nat): State {
    if |s.pending| > maxPending then MarkGap(s.(pending := map[]), REASON_BULK, now, now) else s
  }

  function Record(s: State, events: seq<Event>, maxPending: nat, now: nat): State {
    if events == [] then s else Bounded(RecordEach(s, events), maxPending, now)
  }

  lemma RecordSingle(s: State, e: Event, maxPending: nat, now: nat)
    ensures Record(s, [e], maxPending, now) == Bounded(RecordOne(s, e), maxPending, now)
  {
    assert [e][..0] == [];
    assert RecordEach(s, [e]) == RecordOne(RecordEach(s, []), e);
  }

  function Advance(s: State, through: nat, generation: nat): State {
    s.(pending := map p | p in s.pending && s.pending[p].num > through :: s.pending[p],
       checkpoint := if through > s.checkpoint then through else s.checkpoint,
       generation := generation)
  }

  function Reconciled(s: State, mark: Mark, generation: nat): State {
    var a := Advance(s, mark.sequence, generation);
    if a.gapSeq == mark.gapSeq then a.(gap := None) else a
  }

  /** The map that keying a list of entries by path builds; a later duplicate wins. */
  function Keyed(entries: seq<Entry>): map<string, Entry> {
    if entries == [] then map[]
    else Keyed(entries[..|entries| - 1])[entries[|entries| - 1].path := entries[|entries| - 1]]
  }

  predicate Usable(document: Document, projectID: string) {
    document.Stored? && document.schemaVersion == SCHEMA_VERSION && document.meta.projectID == projectID
  }

  /** Loading always leaves a gap, whatever the document said. */
  function Open(projectID: string, document: Document, now: nat): State {
    if Usable(document, projectID) then
      MarkGap(document.meta.(pending := Keyed(document.entries)), REASON_STARTED, now, now)
    else
      MarkGap(Empty(projectID),
              if document.Absent? then REASON_STARTED else REASON_UNREADABLE, now, now)
  }

  // ---------------------------------------------------------------- the pending list

  predicate Ordered(entries: seq<Entry>) {
    forall i, j :: 0 <= i < j < |entries| ==> entries[i].num < entries[j].num
  }

  /** `entries` is the pending map listed oldest first. */
  ghost predicate Lists(entries: seq<Entry>, pending: map<string, Entry>) {
    && (forall i :: 0 <= i < |entries| ==> entries[i] in pending.Values)
    && (forall p :: p in pending ==> pending[p] in entries)
    && Ordered(entries)
  }

  /** Distinct paths carry distinct sequence numbers. */
  predicate Distinct(pending: map<string, Entry>) {
    forall p, q :: p in pending && q in pending && p != q ==> pending[p].num != pending[q].num
  }

  /** The oldest-first listing is unique, so the order a map is walked in cannot show. */
  lemma {:induction false} ListingIsUnique(a: seq<Entry>, b: seq<Entry>, pending: map<string, Entry>)
    requires Lists(a, pending) && Lists(b, pending)
    ensures a == b
  {
    OrderedSame(a, b);
  }

  lemma {:induction false} OrderedSame(a: seq<Entry>, b: seq<Entry>)
    requires Ordered(a) && Ordered(b)
    requires forall e :: e in a <==> e in b
    ensures a == b
  {
    if a == [] {
      assert forall i :: 0 <= i < |b| ==> b[i] in a;
    } else {
      assert a[|a| - 1] in b && b != [];
      assert b[|b| - 1] in a;
      var x, y := a[|a| - 1], b[|b| - 1];
      assert x == y;
      var a', b' := a[..|a| - 1], b[..|b| - 1];
      forall e ensures e in a' <==> e in b' {
        assert e in a' ==> e in a && e.num < x.num;
        assert e in b' ==> e in b && e.num < x.num;
      }
      OrderedSame(a', b');
      assert a == a' + [x] && b == b' + [x];
    }
  }

  /** The document a save writes: the meta fields and the pending list. */
  ghost predicate Saves(document: Document, s: State) {
    && document.Stored? && document.schemaVersion == SCHEMA_VERSION
    && document.meta == s.(pending := map[])
    && Lists(document.entries, s.pending)
  }

  predicate SelfKeyed(pending: map<string, Entry>) {
    forall p :: p in pending ==> pending[p].path == p
  }

  lemma {:induction false} KeyedProps(entries: seq<Entry>)
    ensures SelfKeyed(Keyed(entries))
    ensures forall p :: p in Keyed(entries) ==> Keyed(entries)[p] in entries
    ensures forall e :: e in entries ==> e.path in Keyed(entries)
  {
    if entries != [] {
      KeyedProps(entries[..|entries| - 1]);
      assert entries == entries[..|entries| - 1] + [entries[|entries| - 1]];
    }
  }

  /**
   Saving then opening gives back the whole journal except for the gap that opening
   adds: nothing observed and not yet applied is lost when the process ends.
   */
  lemma SaveThenOpen(s: State, document: Document, now: nat)
    requires SelfKeyed(s.pending)
    requires Saves(document, s)
    ensures Open(s.projectID, document, now) == MarkGap(s, REASON_STARTED, now, now)
  {
    var k := Keyed(document.entries);
    KeyedProps(document.entries);
    forall p | p in k ensures p in s.pending && s.pending[p] == k[p] {
      var e := k[p];
      assert e in document.entries;
      var q :| q in s.pending && s.pending[q] == e;
    }
    forall p | p in s.pending ensures p in k {
      assert s.pending[p] in document.entries;
    }
    assert k == s.pending;
  }

  // ---------------------------------------------------------------- the class

  class Journal {
    const maxPending: nat
    var meta: State      // every field but `pending`, which stays empty here
    var pending: map<string, Entry>
    var dirty: bool

    function Value(): State reads this { meta.(pending := pending) }

    constructor (projectID: string, document: Document, maxPending: nat, now: nat)
      ensures Value() == Open(projectID, document, now)
      ensures dirty && this.maxPending == maxPending
    {
      this.maxPending := maxPending;
      this.meta := Empty(projectID);
      this.pending := map[];
      this.dirty := false;
      new;
      var reason := REASON_STARTED;
      if document.Unreadable? {
        reason := REASON_UNREADABLE;
      } else if document.Stored? {
        if document.schemaVersion != SCHEMA_VERSION || document.meta.projectID != projectID {
          reason := REASON_UNREADABLE;
        } else {
          meta := document.meta.(pending := map[]);
          for i := 0 to |document.entries|
            invariant pending == Keyed(document.entries[..i])
            invariant meta == document.meta.(pending := map[]) && !dirty
          {
            var entry := document.entries[i];
            assert document.entries[..i + 1][..i] == document.entries[..i];
            pending := pending[entry.path := entry];
          }
          assert document.entries[..|document.entries|] == document.entries;
        }
      }
      MarkGapLocked(reason, now, now);
    }

    method MarkGapLocked(reason: string, at: nat, now: nat)
      modifies this
      ensures Value() == MarkGap(old(Value()), reason, at, now) && dirty
    {
      meta := meta.(gapSeq := meta.gapSeq + 1);
      dirty := true;
      if meta.gap.Some? {
        return;
      }
      meta := meta.(gap := Some(Gap(reason, if at == 0 then now else at)));
    }

    /** One turn of Record's loop. */
    method ObserveOne(event: Event)
      modifies this
      ensures Value() == RecordOne(old(Value()), event) && dirty == old(dirty)
    {
      var path := TrimSpace(event.path);
      if path == "" || path == "." {
        return;
      }
      meta := meta.(sequence := meta.sequence + 1);
      pending := pending[path := Entry(meta.sequence, path, event.kind, event.directory, event.at)];
      if event.at > meta.lastEventAt {
        meta := meta.(lastEventAt := event.at);
      }
    }

    method Observe(events: seq<Event>, now: nat)
      modifies this
      ensures Value() == Record(old(Value()), events, maxPending, now)
      ensures dirty == (old(dirty) || events != [])
    {
      if |events| == 0 {
        return;
      }
      for i := 0 to |events|
        invariant Value() == RecordEach(old(Value()), events[..i])
      {
        assert events[..i + 1][..i] == events[..i];
        ObserveOne(events[i]);
      }
      assert events[..|events|] == events;
      dirty := true;
      if |pending| > maxPending {
        pending := map[];
        MarkGapLocked(REASON_BULK, now, now);
      }
    }

    method AdvanceLocked(through: nat, generation: nat)
      modifies this
      ensures Value() == Advance(old(Value()), through, generation) && dirty
    {
      var unvisited := pending.Keys;
      ghost var before := pending;
      while unvisited != {}
        invariant unvisited <= before.Keys
        invariant meta == old(meta)
        invariant forall p :: p in pending <==> p in before && (p in unvisited || before[p].num > through)
        invariant forall p :: p in pending ==> pending[p] == before[p]
        decreases |unvisited|
      {
        var path :| path in unvisited;
        if pending[path].num <= through {
          pending := pending - {path};
        }
        unvisited := unvisited - {path};
      }
      assert pending == map p | p in before && before[p].num > through :: before[p];
      if through > meta.checkpoint {
        meta := meta.(checkpoint := through);
      }
      meta := meta.(generation := generation);
      dirty := true;
    }

    method Commit(through: nat, generation: nat)
      modifies this
      ensures Value() == Advance(old(Value()), through, generation) && dirty
    {
      AdvanceLocked(through, generation);
    }

    method MarkReconciled(mark: Mark, generation: nat)
      modifies this
      ensures Value() == Reconciled(old(Value()), mark, generation) && dirty
    {
      AdvanceLocked(mark.sequence, generation);
      if meta.gapSeq == mark.gapSeq {
        meta := meta.(gap := None);
      }
    }

    /** pendingLocked: walk the map in any order, keeping the list sorted by sequence. */
    method PendingLocked() returns (entries: seq<Entry>)
      requires Distinct(pending)
      ensures Lists(entries, pending) && unchanged(this)
    {
      entries := [];
      var unvisited := pending.Keys;
      while unvisited != {}
        invariant unvisited <= pending.Keys
        invariant forall e :: e in entries ==> e in pending.Values
        invariant forall p :: p in pending ==> (p in unvisited <==> pending[p] !in entries)
        invariant Ordered(entries)
        decreases |unvisited|
      {
        var path :| path in unvisited;
        var e := pending[path];
        forall i | 0 <= i < |entries| ensures entries[i].num != e.num {
          assert entries[i] in entries;
          var q :| q in pending && pending[q] == entries[i];
        }
        var grown := Insert(entries, e);
        assert e in pending.Values;
        entries := grown;
        unvisited := unvisited - {path};
      }
    }
  }

  function Inserted(entries: seq<Entry>, k: nat, e: Entry): seq<Entry>
    requires k <= |entries|
  {
    entries[..k] + [e] + entries[k..]
  }

  lemma InsertedOrdered(entries: seq<Entry>, k: nat, e: Entry)
    requires k <= |entries| && Ordered(entries)
    requires forall i :: 0 <= i < k ==> entries[i].num < e.num
    requires forall i :: k <= i < |entries| ==> e.num < entries[i].num
    ensures Ordered(Inserted(entries, k, e))
  {
    var g := Inserted(entries, k, e);
    forall i, j | 0 <= i < j < |g| ensures g[i].num < g[j].num {
      var i', j' := if i > k then i - 1 else i, if j > k then j - 1 else j;
      assert i < k ==> g[i] == entries[i];
      assert i > k ==> g[i] == entries[i - 1];
      assert j < k ==> g[j] == entries[j];
      assert j > k ==> g[j] == entries[j - 1];
    }
  }

  lemma InsertedMembers(entries: seq<Entry>, k: nat, e: Entry)
    requires k <= |entries|
    ensures forall x :: x in Inserted(entries, k, e) <==> x in entries || x == e
  {
    assert entries == entries[..k] + entries[k..];
  }

  method Insert(entries: seq<Entry>, e: Entry) returns (grown: seq<Entry>)
    requires Ordered(entries)
    requires forall i :: 0 <= i < |entries| ==> entries[i].num != e.num
    ensures Ordered(grown)
    ensures forall x :: x in grown <==> x in entries || x == e
  {
    var k := |entries|;
    while k > 0 && entries[k - 1].num > e.num
      invariant 0 <= k <= |entries|
      invariant forall i :: k <= i < |entries| ==> e.num < entries[i].num
    {
      k := k - 1;
    }
    InsertedOrdered(entries, k, e);
    InsertedMembers(entries, k, e);
    grown := Inserted(entries, k, e);
  }
}
