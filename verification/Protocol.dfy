/**
 The change-tracking protocol as a state machine: the user's filesystem, the native event
 queue, the watcher's two bounded channels, the journal, the drain and the index service,
 interleaved step by step.

   internal/fswatch/fswatch.go              translate, emit, reportGap
   internal/watchsupervisor/worker.go       run, drain, indexChanges, stop
   internal/changejournal/journal.go        through module ChangeJournal
   images/code-intel/internal/searchindex/store.go   Update, Reconcile (the index service)

 `history` is the log of everything that happened on disk. A notification is its position
 in that log, counted from 1, so the order of notifications is the order of positions.
 */
module Protocol {
  import opened Text
  import CJ = ChangeJournal
  import Freshness

  type Path = string
  type Content = string

  // ---------------------------------------------------------------- the disk

  datatype Change =
    | Write(path: Path, content: Content)
    | Touch(path: Path)                    // a notification with no change behind it
    | Delete(path: Path)
    | DeleteTree(path: Path)               // a directory removed or renamed away
    | MakeDir(path: Path)

  function EventOf(c: Change): CJ.Event {
    CJ.Event(c.path, if c.Delete? || c.DeleteTree? then CJ.Removed else CJ.Written,
             c.DeleteTree? || c.MakeDir?, 1)
  }

  predicate Under(directory: Path, q: Path) { directory + "/" <= q }

  /**
   The paths whose index entry an observation can settle: a removed directory takes what
   is beneath it, a created directory settles nothing (worker.go:314-334).
   */
  predicate Touches(e: CJ.Event, q: Path) {
    match e.kind
    case Written => !e.directory && e.path == q
    case Removed => e.path == q || (e.directory && Under(e.path, q))
  }

  function Effect(fs: map<Path, Content>, c: Change): map<Path, Content> {
    match c
    case Write(p, content) => fs[p := content]
    case Delete(p) => fs - {p}
    case DeleteTree(d) => map q | q in fs && q != d && !Under(d, q) :: fs[q]
    case _ => fs
  }

  function At(m: map<Path, Content>, q: Path): Option<Content> {
    if q in m then Some(m[q]) else None
  }

  /** The position of the last observation touching a path, 0 when there is none. */
  function LastTouch(history: seq<CJ.Event>, q: Path): (t: nat)
    ensures t <= |history|
    ensures t > 0 ==> Touches(history[t - 1], q)
  {
    if history == [] then 0
    else if Touches(history[|history| - 1], q) then |history|
    else LastTouch(history[..|history| - 1], q)
  }

  // ---------------------------------------------------------------- the state

  datatype NativeItem = Note(time: nat) | Overflow

  /** Why the stream may be incomplete (fswatch.go:51-63). */
  datatype Notice = WatcherOverflow | Capacity | Unwatchable | Backlog | WatcherError

  function Reason(n: Notice): (r: string)
    ensures r != ""
  {
    match n
    case WatcherOverflow => "watcher_overflow"
    case Capacity => "watch_capacity_exceeded"
    case Unwatchable => "directory_unwatchable"
    case Backlog => "consumer_backlog"
    case WatcherError => "watcher_error"
  }

  /** Each cause has a reason of its own, and none is the journal's. */
  lemma ReasonsTellApart(a: Notice, b: Notice)
    ensures Reason(a) == Reason(b) <==> a == b
    ensures Reason(a) != CJ.REASON_STARTED && Reason(a) != CJ.REASON_UNREADABLE && Reason(a) != CJ.REASON_BULK
  {
    assert |Reason(WatcherOverflow)| == 16 && |Reason(Capacity)| == 23 && |Reason(Unwatchable)| == 21;
    assert |Reason(Backlog)| == 16 && |Reason(WatcherError)| == 13;
    assert Reason(WatcherOverflow)[0] == 'w' && Reason(Backlog)[0] == 'c';
    assert |CJ.REASON_STARTED| == 19 && |CJ.REASON_UNREADABLE| == 18 && |CJ.REASON_BULK| == 11;
  }

  /** One index operation; `time` is the observation it came from. */
  datatype Item = Item(path: Path, deleted: bool, subtree: bool, time: nat)

  /** A request in the service: a delta over some changes, or a walk of the whole workspace. */
  datatype Job =
    | Delta(work: map<Path, Content>, todo: seq<Item>)
    | Full(work: map<Path, Content>, required: set<Path>, visited: set<Path>)

  datatype Phase = Asked | Serving | Answered

  /** A drain holds the mark of the snapshot it acts on; `horizon` is that mark as a time. */
  datatype Drain = Drain(mark: CJ.Mark, reconcile: bool, items: seq<Item>, horizon: nat, phase: Phase)

  datatype Saved = Saved(journal: CJ.State, when: map<Path, nat>)

  datatype State = State(
    up: bool,
    history: seq<CJ.Event>,
    fs: map<Path, Content>,
    index: map<Path, Content>,
    native: seq<NativeItem>,
    events: seq<nat>,
    gaps: seq<Notice>,
    recorded: nat,               // time of the last event taken from the channel
    journal: CJ.State,
    when: map<Path, nat>,        // time of the observation behind each pending entry under its own name
    drain: Option<Drain>,
    job: Option<Job>,
    disk: Option<Saved>,
    eventCap: nat,
    gapCap: nat,
    maxPending: nat)

  datatype Fate = Queued | KernelLoss | Unobserved

  datatype Step =
    | User(change: Change, fate: Fate)
    | Translate
    | TakeEvent(now: nat)
    | TakeGap(now: nat)
    | Snapshot(entries: seq<CJ.Entry>)
    | Serve
    | ApplyNext
    | Escalate
    | Read(path: Path)
    | Publish
    | Abort
    | GiveUp
    | Acknowledge(generation: nat)
    | Save
    | Stop(reason: string, now: nat)
    | Crash
    | Reopen(now: nat)

  // ---------------------------------------------------------------- the watcher

  /** reportGap: a full channel already says what one more notice would. */
  function ReportGap(s: State, n: Notice): State {
    if |s.gaps| < s.gapCap then s.(gaps := s.gaps + [n]) else s
  }

  /** emit: deliver, or drop the event and report a gap; never block. */
  function Emit(s: State, t: nat): State {
    if |s.events| < s.eventCap then s.(events := s.events + [t]) else ReportGap(s, Backlog)
  }

  function DoTranslate(s: State): State
    requires s.native != []
  {
    var rest := s.(native := s.native[1..]);
    match s.native[0]
    case Note(t) => Emit(rest, t)
    case Overflow => ReportGap(rest, WatcherOverflow)
  }

  function DoUser(s: State, c: Change, fate: Fate): State {
    var h := s.history + [EventOf(c)];
    s.(history := h, fs := Effect(s.fs, c),
       native := match fate
                 case Queued => s.native + [Note(|h|)]
                 case KernelLoss => s.native + [Overflow]
                 case Unobserved => s.native)
  }

  // ---------------------------------------------------------------- the worker

  /** One event from the channel into the journal. */
  function DoTakeEvent(s: State, now: nat): State
    requires s.events != [] && 0 < s.events[0] <= |s.history|
  {
    var t := s.events[0];
    var e := s.history[t - 1];
    var journal := CJ.Record(s.journal, [e], s.maxPending, now);
    s.(events := s.events[1..], recorded := t, journal := journal,
       when := if |journal.pending| == 0 then map[] else Remember(s.when, e, t))
  }

  /** An entry recorded under another name than its path stands for no observation of that name. */
  function Remember(when: map<Path, nat>, e: CJ.Event, t: nat): map<Path, nat> {
    if !CJ.Accepted(e) then when
    else if Trimmed(e.path) then when[e.path := t]
    else when - {CJ.Observed(e).path}
  }

  function DoTakeGap(s: State, now: nat): State
    requires s.gaps != []
  {
    s.(gaps := s.gaps[1..], journal := CJ.MarkGap(s.journal, Reason(s.gaps[0]), now, now))
  }

  /** indexChanges, each operation tagged with the time of its observation. */
  function Items(entries: seq<CJ.Entry>, when: map<Path, nat>): seq<Item> {
    if entries == [] then []
    else
      var e := entries[|entries| - 1];
      var t := if e.path in when then when[e.path] else 0;
      Items(entries[..|entries| - 1], when) +
      (if e.kind == CJ.Removed then [Item(e.path, true, e.directory, t)]
       else if e.directory then []
       else [Item(e.path, false, false, t)])
  }

  function DoSnapshot(s: State, entries: seq<CJ.Entry>): State {
    s.(drain := Some(Drain(s.journal.TakeMark(), s.journal.gap.Some?, Items(entries, s.when), s.recorded, Asked)))
  }

  function DoAcknowledge(s: State, generation: nat): State
    requires s.drain.Some?
  {
    var d := s.drain.value;
    s.(journal := if d.reconcile then CJ.Reconciled(s.journal, d.mark, generation)
                  else CJ.Advance(s.journal, d.mark.sequence, generation),
       when := map p | p in s.when && p in s.journal.pending && s.journal.pending[p].num > d.mark.sequence :: s.when[p],
       drain := None)
  }

  // ---------------------------------------------------------------- the service

  function DoServe(s: State): State
    requires s.drain.Some?
  {
    var d := s.drain.value;
    s.(drain := Some(d.(phase := Serving)),
       job := Some(if d.reconcile then Full(s.index, s.fs.Keys + s.index.Keys, {}) else Delta(s.index, d.items)))
  }

  function Store(work: map<Path, Content>, q: Path, value: Option<Content>): map<Path, Content> {
    match value
    case Some(c) => work[q := c]
    case None => work - {q}
  }

  predicate Hits(item: Item, q: Path) { item.path == q || (item.subtree && Under(item.path, q)) }

  /** A deletion drops the path, or the subtree, unread; anything else is read from disk now. */
  function ApplyItem(work: map<Path, Content>, item: Item, fs: map<Path, Content>): map<Path, Content> {
    if item.deleted then map q | q in work && !Hits(item, q) :: work[q]
    else Store(work, item.path, At(fs, item.path))
  }

  predicate Finished(job: Job) {
    match job
    case Delta(_, todo) => todo == []
    case Full(_, required, visited) => required <= visited
  }

  predicate Attached(s: State) { s.drain.Some? && s.drain.value.phase == Serving }

  /** The answer reaches the worker only if it is still waiting for it. */
  function DoPublish(s: State): State
    requires s.job.Some?
  {
    s.(index := s.job.value.work, job := None,
       drain := if Attached(s) then Some(s.drain.value.(phase := Answered)) else s.drain)
  }

  // ---------------------------------------------------------------- the steps

  ghost predicate Enabled(s: State, step: Step) {
    match step
    case User(_, fate) => fate == Unobserved || s.up
    case Translate => s.up && s.native != []
    case TakeEvent(_) => s.up && s.events != [] && 0 < s.events[0] <= |s.history|
    case TakeGap(_) => s.up && s.gaps != []
    case Snapshot(entries) =>
      && s.up && s.drain.None?
      && (s.journal.gap.Some? || s.journal.pending != map[])
      && CJ.Lists(entries, s.journal.pending)
    case Serve => s.drain.Some? && s.drain.value.phase == Asked && s.job.None?
    case ApplyNext => s.job.Some? && s.job.value.Delta? && s.job.value.todo != []
    case Escalate => s.job.Some? && s.job.value.Delta?
    case Read(_) => s.job.Some? && s.job.value.Full?
    case Publish => s.job.Some? && Finished(s.job.value)
    case Abort => s.job.Some?
    case GiveUp => s.drain.Some?
    case Acknowledge(_) => s.drain.Some? && s.drain.value.phase == Answered
    case Save => s.up
    case Stop(reason, _) => s.up && s.drain.None? && reason != ""
    case Crash => s.up
    case Reopen(_) => !s.up
  }

  function Down(s: State): State {
    s.(up := false, native := [], events := [], gaps := [], drain := None)
  }

  function Do(s: State, step: Step): State
    requires Enabled(s, step)
  {
    match step
    case User(c, fate) => DoUser(s, c, fate)
    case Translate => DoTranslate(s)
    case TakeEvent(now) => DoTakeEvent(s, now)
    case TakeGap(now) => DoTakeGap(s, now)
    case Snapshot(entries) => DoSnapshot(s, entries)
    case Serve => DoServe(s)
    case ApplyNext =>
      var j := s.job.value;
      s.(job := Some(Delta(ApplyItem(j.work, j.todo[0], s.fs), j.todo[1..])))
    case Escalate => s.(job := Some(Full(s.index, s.fs.Keys + s.index.Keys, {})))
    case Read(p) =>
      var j := s.job.value;
      s.(job := Some(Full(Store(j.work, p, At(s.fs, p)), j.required, j.visited + {p})))
    case Publish => DoPublish(s)
    case Abort => s.(job := None, drain := if Attached(s) then None else s.drain)
    case GiveUp => s.(drain := None)
    case Acknowledge(generation) => DoAcknowledge(s, generation)
    case Save => s.(disk := Some(Saved(s.journal, s.when)))
    case Stop(reason, now) =>
      var j := CJ.MarkGap(s.journal, reason, now, now);
      Down(s).(journal := j, disk := Some(Saved(j, s.when)))
    case Crash => Down(s)
    case Reopen(now) =>
      match s.disk
      case None =>
        s.(up := true, recorded := |s.history|, when := map[],
           journal := CJ.Open(s.journal.projectID, CJ.Absent, now))
      case Some(Saved(j, when)) =>
        s.(up := true, recorded := |s.history|, when := when,
           journal := CJ.MarkGap(j, CJ.REASON_STARTED, now, now))
  }

  /** Before the first start: nothing observed, any disk and any index. */
  predicate Initial(s: State) {
    && !s.up && s.history == [] && s.native == [] && s.events == [] && s.gaps == []
    && s.when == map[] && s.drain.None? && s.job.None? && s.disk.None?
    && s.journal == CJ.Empty(s.journal.projectID)
    && s.eventCap > 0 && s.gapCap > 0 && s.maxPending > 0
  }

  // ---------------------------------------------------------------- the report

  /** worker.view through daemon.server: what the gateway is told. */
  function View(s: State): Freshness.ChangeState {
    Freshness.ChangeState(s.up, |s.journal.pending|, s.drain.Some?,
                          if s.journal.gap.Some? then s.journal.gap.value.reason else "")
  }

  function Verdict(s: State): Freshness.Verdict {
    Freshness.DescribeChanges(View(s), s.up, false).verdict
  }

  predicate InFlight(s: State, t: nat) { t in s.events || Note(t) in s.native }

  /** A loss not yet in the journal: a gap notice, or a kernel overflow, on its way. */
  predicate Alarm(s: State) { s.gaps != [] || Overflow in s.native }

  /** No notification about a path is on its way to the journal. */
  ghost predicate Quiet(s: State, q: Path) {
    && !Alarm(s)
    && forall t: nat :: 0 < t <= |s.history| && InFlight(s, t) ==> !Touches(s.history[t - 1], q)
  }

  // ---------------------------------------------------------------- discipline

  /** Whether replacing a pending observation by a newer one keeps everything it settles. */
  predicate KeepsCover(kind: CJ.Kind, directory: bool, e: CJ.Event) {
    && (kind == CJ.Removed && directory ==> e.kind == CJ.Removed && e.directory)
    && (kind == CJ.Removed || !directory ==> e.kind == CJ.Removed || !e.directory)
  }

  /** An event whose recording loses nothing: its path survives trimming, and it covers what it replaces. */
  predicate RecordsFaithfully(j: CJ.State, e: CJ.Event) {
    && Trimmed(e.path) && CJ.Accepted(e)
    && (e.path in j.pending ==> KeepsCover(j.pending[e.path].kind, j.pending[e.path].directory, e))
  }

  /**
   The conditions the code leaves to its environment. FreshnessBreaches continues any run
   through a breach of each to a wrong answer.
     - every change under a running watcher is notified or reported lost;
     - no recorded event narrows the pending entry it replaces;
     - a reconciliation does not start while a removal is still queued in the channel.
   */
  predicate Disciplined(s: State, step: Step) {
    match step
    case User(_, fate) => s.up ==> fate != Unobserved
    case TakeEvent(_) =>
      s.events != [] && 0 < s.events[0] <= |s.history| ==> RecordsFaithfully(s.journal, s.history[s.events[0] - 1])
    case Snapshot(_) =>
      s.journal.gap.Some? ==>
        forall i :: 0 <= i < |s.events| && 0 < s.events[i] <= |s.history| ==> s.history[s.events[i] - 1].kind != CJ.Removed
    case _ => true
  }

  /** No removal the watcher has yet to translate is queued in the kernel. */
  predicate NoQueuedRemoval(s: State) {
    forall i :: 0 <= i < |s.native| && s.native[i].Note? && 0 < s.native[i].time <= |s.history| ==>
      s.history[s.native[i].time - 1].kind != CJ.Removed
  }

  /**
   Where whatever went wrong before no longer matters: the process is not running, or the
   next snapshot will be a reconciliation. Every start reaches one, because opening the
   journal always leaves a gap (journal.go:204).
   */
  predicate CleanPoint(s: State) {
    s.up ==> s.drain.None? && s.journal.gap.Some? && NoQueuedRemoval(s)
  }

  ghost predicate Run(s: State, steps: seq<Step>, disciplined: bool)
    decreases |steps|, 0
  {
    steps == [] ||
    var rest := steps[..|steps| - 1];
    && Run(s, rest, disciplined)
    && Enabled(Reach(s, rest, disciplined), steps[|steps| - 1])
    && (disciplined ==> Disciplined(Reach(s, rest, disciplined), steps[|steps| - 1]))
  }

  ghost function Reach(s: State, steps: seq<Step>, disciplined: bool): State
    requires Run(s, steps, disciplined)
    decreases |steps|, 1
  {
    if steps == [] then s
    else Do(Reach(s, steps[..|steps| - 1], disciplined), steps[|steps| - 1])
  }
}
