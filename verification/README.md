# LCTK in Dafny

LCTK runs project services on a developer's machine: it watches project files and keeps an
index of them current, edits a configuration file it shares with other programs, moves its
own releases forward and back, and reads what git reports. This project models that
behaviour and proves what it promises.

`dafny verify dfyconfig.toml` checks everything. Operations that the system performs step by
step on an object are methods of a class, proved to compute a function; what is promised is
then proved of that function, for every input, run or reachable state.

## The four parts

**Change tracking** (`Journal`, `JournalRuns`, `Watcher`, `Worker`, `Lifecycle`, `HostSettings`, `Deferral`,
`Supervisor`, `Freshness`, `Protocol*`, `HonestFreshness`, `RecordCover`, `Recovery`,
`FreshnessBreaches`, `JournalFacts`, `WatcherMemory`). A watcher feeds two bounded channels; a worker records what
arrives in a deduplicating journal; a drain snapshots the journal, asks the index service to
apply or reconcile while more arrives, and commits a checkpoint. `Protocol` interleaves all
of this with the user's changes, lost notifications, failures, stops, crashes and restarts.

The claim at its centre is that "fresh" means the index agrees with the disk. It is false of
the code in general, and this is where it holds and where it does not.

It holds from a clean point on. Start anywhere and let anything happen at all. Once the
process is down, as before every start, or once the next snapshot is going to be a
reconciliation with nothing under way and no removal queued (`Protocol.CleanPoint`), every run
that keeps three conditions (`Protocol.Disciplined`, each a guard on one step) is honest:
fresh means that the index is the disk at every path with no notification on its way
(`FreshMeansIndexed`). Nothing is asked of the past, because opening the journal always leaves
a gap (`internal/changejournal/journal.go:204`).

It fails without each of these conditions, at any time and for any file. Every run of the
code, whatever its past, can be settled (`Recovery.Settles`), and `FreshnessBreaches`
continues it from there through each breach to a state that is "fresh", with nothing on its
way, and wrong:

- every user change is notified. A directory past the watch budget, or one that cannot be
  registered, opens one gap when it is met (`internal/fswatch/fswatch.go:245-267`); once that
  gap is reconciled any change there is invisible (`UnwatchedChange`);
- no recorded event narrows the entry it replaces. The journal keeps one entry per path
  (`journal.go:226`), so two changes at one path drained together are honest if and only if
  the second reaches everything the first altered (`PairIsHonestExactly`). It does not for a
  removed directory that is created again (`DirectoryReplaced`) or a file replaced by a
  directory (`FileBecomesDirectory`). And its path is its own trim: a name that starts or ends with a space is recorded under another name
  (`journal.go:221`, `TrimmedName`);
- a reconciliation does not start while a removal is queued. The two channels are read
  independently (`internal/watchsupervisor/worker.go:134-164`), so a notice of loss can
  overtake events queued before the loss (`GapOvertakesRemoval`). For the same reason a point
  is not clean while a removal waits in the kernel's queue (`StaleRemovalQueued`) or a
  reconciliation is already under way (`WalkOverrun`).

`RecordCover` decides the second condition for one step exactly: taking an event keeps every
wrong path named by something pending, whatever disk and index hold, if and only if the entry
it replaces is covered by it or lies below a pending directory removal
(`TakeEventKeepsAccountsExactly`). Being named is less than being right: an entry below a
pending removal is still named, but by an operation that deletes it, so `Disciplined` asks for
the first alternative.

**Text** (`Text`, `Toml*`, `Codex*`, `EntryReads`, `Glob*`, `Git*`). The editor of a shared TOML file, its
key and string printers against TOML v1.0.0 ("Keys", "String"), the compiler from globs to
regular expressions, and the parser of git-status "Porcelain Format Version 2".

- Merging the same entry twice changes nothing, and a merged entry is found at exactly its
  block, if and only if no begin marker of the project stands before it.
- A printed table header parses back to its path if and only if the name holds no control
  character, because `splitKeyPath` keeps the letter after a backslash
  (`internal/codexconfig/merge.go:274-278`).
- An entry LCTK did not write is replaced only by force, and never when it is a key
  (`MergeIsExact`); without force every line outside LCTK's own region survives
  (`UnforcedMergeKeepsLines`).
- A quoted key keeps the spaces before its equals sign (`internal/codexconfig/merge.go:250-301`),
  so such a key of the server's name is not recognised (`TomlPaths.KeyNameIsExact`).
- Removing what a merge wrote keeps the user's lines if and only if that condition holds;
  otherwise the lines from the loose begin marker on go with it.
- A conflict (`u`) record is read as if it had eleven fields before its path
  (`internal/gitinfo/parse.go:62`), while the format, and the comment at `parse.go:23`, give
  it ten: a conflict is lost when its path has no space and misread when it has one
  (`ConflictsAreMisread`). A printed status is recovered exactly if and only if it has no
  conflict (`StatusRoundTrip`).
- The glob compiler's output is parsed without the single-line flag
  (`adapter.go:407`), so its anchors are line anchors; for newline-free paths that is the same.
  A negated class takes a slash, which `*` and `?` never do.

**Transactions** (`Update*`, `Activation`, `ActivationManager`). Moving every running project
to a release and back, and switching the host's own executable through one document, with
every disk state a crash could leave recorded in a ghost trace.

- Storing a core is crash-safe if and only if its version is not the active one or it is the
  active core's very contents (`StoringIsSafeExactly`, `ReinstallIsSafeExactly`), and under
  that condition an install is safe throughout (`Manager.Install`). Installing the active
  version again makes it its own rollback target: the one kept until then is no longer named.
- A crash during a download leaves a file that makes every later install of that version fail
  until it is removed (the last clause of `Manager.Install`).

**Algorithms** (`Nest`, `Indexer`). Innermost containers by a stack, and the reference index
service's diff-then-patch.

Two durations: a project's proposed debounce window in milliseconds is multiplied into an
int64 of nanoseconds and may wrap (`internal/hostsettings/settings.go:276`); the bounds still
hold, but a huge proposal can fall to the lower one.

## Model

| member | source | states |
|---|---|---|
| HonestFreshness.FreshMeansIndexed | internal/gateway/gateway.go:263-301 | after any run to a clean point and any disciplined run from there, a fresh verdict means index and disk agree at every path with no notification on its way |
| HonestFreshness.FreshAndIdleMeansEqual | internal/gateway/gateway.go:263-301 | and with nothing on its way the index is the disk |
| HonestFreshness.WrongPathsAreAccountedFor | internal/watchsupervisor/worker.go:252-312 | likewise, while the record is complete, every path the index is wrong about is pending or notified |
| HonestFreshness.RunKeepsInv | internal/watchsupervisor/worker.go:107-177 | the protocol invariant holds after every disciplined run |
| HonestFreshness.RunKeepsBase | internal/watchsupervisor/worker.go:107-177 | what holds after every run whatever: entries keyed, numbered apart and dated, queues in order, removed files gone |
| HonestFreshness.LossIsNoticed | internal/fswatch/fswatch.go:469-488 | after a dropped event the gap channel stays non-empty until a notice is read, which opens a gap newer than the loss, even if the loss's own notice was dropped |
| Recovery.Settles | internal/watchsupervisor/worker.go:252-300 | every reachable state has a continuation that changes nothing on disk and ends fresh with the index equal to the disk |
| FreshnessBreaches.UnwatchedChange | internal/fswatch/fswatch.go:245-267 | every run continues to fresh and wrong through any unwatched change that changes anything |
| FreshnessBreaches.PairIsHonestExactly | internal/changejournal/journal.go:213-247 | two changes at one path drained together end fresh, and right if and only if the second reaches every path the first altered |
| FreshnessBreaches.EntryNarrowed | internal/changejournal/journal.go:226 | otherwise every run continues through them to fresh and wrong |
| FreshnessBreaches.DirectoryReplaced | internal/changejournal/journal.go:213-247 | and for every file in a directory removed and created again |
| FreshnessBreaches.FileBecomesDirectory | internal/watchsupervisor/worker.go:315-334 | and for every file replaced by a directory |
| FreshnessBreaches.TrimmedName | internal/changejournal/journal.go:221 | and through any change under a name that is not its own trim |
| FreshnessBreaches.GapOvertakesRemoval | internal/watchsupervisor/worker.go:134-164 | and for every file, when a notice of loss overtakes its queued removal |
| FreshnessBreaches.StaleRemovalQueued | internal/fswatch/fswatch.go:356-368 | a removal still queued in the kernel at a reconciliation leads a disciplined run to fresh and wrong |
| FreshnessBreaches.WalkOverrun | internal/watchsupervisor/worker.go:281-300 | so does a change that a reconciliation under way has already passed |
| RecordCover.RecordLosesNothingExactly | internal/changejournal/journal.go:213-235 | recording keeps every path covered if and only if the replaced entry is covered by the new one or by a pending removal above it |
| RecordCover.TakeEventKeepsAccountsExactly | internal/watchsupervisor/worker.go:134-150 | the worker's step keeps every wrong path accounted for, for all disks and indexes, if and only if that condition holds |
| ProtocolDrains.SnapshotStep | internal/watchsupervisor/worker.go:252-260 | taking a snapshot keeps the invariant while events keep arriving |
| ProtocolInvariant.FlowKeeps | internal/watchsupervisor/worker.go:107-164 | every flow of notifications keeps the invariant |
| Freshness.FreshNeedsEvidence | internal/gateway/gateway.go:263-301 | fresh is claimed exactly when watched, idle, complete and with nothing pending |
| Freshness.VerdictsAreExact | internal/gateway/gateway.go:263-301 | updating exactly while something indexes, stale exactly when watched and idle with a gap or something pending, unknown exactly when neither watched nor indexing |
| Freshness.BlockTellsTheView | internal/gateway/gateway.go:276-287 | an answer carries the view exactly when watched: what is pending, the joined indexing flag, and complete exactly without a reason |
| HonestFreshness.VerdictIsExact | internal/gateway/gateway.go:263-301 | after any run: updating during a drain, unknown while down, stale with a gap or something pending, fresh with neither |
| HonestFreshness.StartIsStale | internal/changejournal/journal.go:204 | every start is reported stale, whatever was stored |
| ChangeJournal.Journal.constructor | internal/changejournal/journal.go:158-206 | opening loads a usable document and always leaves a gap |
| ChangeJournal.Journal.Observe | internal/changejournal/journal.go:213-247 | recording a batch computes Record: one entry per path, re-sequenced, dropped whole past the bound |
| ChangeJournal.Journal.MarkGapLocked | internal/changejournal/journal.go:262-274 | the gap counter rises and the first reason is kept |
| ChangeJournal.Journal.AdvanceLocked | internal/changejournal/journal.go:314-325 | what is at or below the mark is deleted, the checkpoint never falls |
| ChangeJournal.Journal.Commit | internal/changejournal/journal.go:293-297 | a commit advances and leaves the gap |
| ChangeJournal.Journal.MarkReconciled | internal/changejournal/journal.go:305-312 | a reconciliation advances and closes only the gap it set out to close |
| ChangeJournal.Journal.PendingLocked | internal/changejournal/journal.go:344-351 | the pending list holds every pending entry, oldest first |
| ChangeJournal.ListingIsUnique | internal/changejournal/journal.go:344-351 | only one such list exists, whatever order the map is walked in |
| ChangeJournal.SaveThenOpen | internal/changejournal/journal.go:158-206 | saving and opening gives back the journal with one more gap |
| JournalFacts.OpenRejects | internal/changejournal/journal.go:158-206 | a missing, unreadable, other-schema or other-project document starts from nothing with its own reason |
| JournalFacts.OpenAccepts | internal/changejournal/journal.go:158-206 | the project's own document is taken over whole, the last entry of a path winning |
| JournalFacts.GapTellsTheFirstBreak | internal/changejournal/journal.go:262-274 | a gap keeps the reason and instant of the break that opened it until a reconciliation or restart |
| JournalFacts.LastEventIsLatest | internal/changejournal/journal.go:213-247 | in every run the last event is the latest observed, in whatever order they came |
| JournalFacts.ProgressIsKept | internal/changejournal/journal.go:293-325 | in every run the generation is the last reported, the checkpoint the greatest mark, and the journal its project's |
| JournalRuns.PendingRefinesLog | internal/changejournal/journal.go:213-351 | with no gap, pending is exactly the last observation of each path past the checkpoint, and empty exactly when caught up |
| JournalRuns.PendingIsAlwaysSound | internal/changejournal/journal.go:213-247 | gap or not, nothing pending is stale or already committed |
| JournalRuns.GapSeqCountsBreaks | internal/changejournal/journal.go:262-274 | the gap counter counts the breaks of a run, one each |
| JournalRuns.ReconcileClosesOnlyItsGap | internal/changejournal/journal.go:305-312 | the gap is gone afterwards exactly when nothing broke the record since the mark or it was closed already |
| JournalRuns.ReconcileKeepsLaterObservations | internal/changejournal/journal.go:299-325 | what was observed after the mark is still pending, at its latest observation |
| JournalRuns.FirstReasonIsKept | internal/changejournal/journal.go:265-269 | no sequence of breaks and observations changes the recorded reason |
| Watcher.RegistryStaysOk | internal/fswatch/fswatch.go:231-309 | the watch budget holds and no directory is both watched and remembered as gone |
| Watcher.EveryRemovalReportSaysDirectory | internal/fswatch/fswatch.go:356-368 | repeated reports of a watched directory's removal all say directory, and nothing beneath it stays watched |
| Watcher.DeliveredOrNoticed | internal/fswatch/fswatch.go:469-488 | whatever is seen is delivered or leaves a notice queued, and so is everything already inside a new directory |
| Watcher.WalkIsTold | internal/fswatch/fswatch.go:414-443 | the walk over a new directory reports every file and directory it visits, or leaves a notice |
| WatcherMemory.RegisterIsExact | internal/fswatch/fswatch.go:231-274 | what is watched and remembered after a registration, and which notice says why a directory is not |
| WatcherMemory.CreationAccounts | internal/fswatch/fswatch.go:370-443 | a created directory and every directory inside it is watched, vanished, or announced |
| WatcherMemory.CreatedThenRemoved | internal/fswatch/fswatch.go:356-393 | a directory created within budget and later removed is reported as a directory |
| WatcherMemory.ReportsAreExact | internal/fswatch/fswatch.go:341-404 | which event each native report becomes, and which are silent |
| Watcher.Watcher.Register | internal/fswatch/fswatch.go:231-274 | registration computes RegisteredIn: path rules, the one-shot capacity notice, the unwatchable notice, the forgotten removal |
| Watcher.Watcher.DropSubtree | internal/fswatch/fswatch.go:449-462 | everything beneath a removed directory is forgotten |
| Watcher.Watcher.TranslateRemoval | internal/fswatch/fswatch.go:356-368 | a removal is reported with what the registry or the memory knows |
| Watcher.Watcher.TranslateCreation | internal/fswatch/fswatch.go:370-393 | a new directory is registered, then reported, then walked |
| Watcher.Watcher.Adopt | internal/fswatch/fswatch.go:414-443 | the walk's loop computes Adopted |
| Watcher.Watcher.TranslateWrite | internal/fswatch/fswatch.go:395-403 | a write against a watched directory is silent |
| Worker.BuildIndexChanges | internal/watchsupervisor/worker.go:315-334 | the operations reach exactly the paths some entry can settle |
| Worker.ChangesReachWhatEntriesSettle | internal/watchsupervisor/worker.go:315-334 | the same, of the function |
| Worker.ItemsAreIndexChanges | internal/watchsupervisor/worker.go:278-280 | the protocol applies these operations |
| Worker.Worker.BeginDrain | internal/watchsupervisor/worker.go:252-280 | what a drain sets out to do comes from one snapshot |
| Worker.Worker.EndDrain | internal/watchsupervisor/worker.go:281-300 | a failure advances nothing; a success commits or reconciles at the snapshot's mark |
| Worker.Worker.Retarget | internal/watchsupervisor/worker.go:81-92 | a new address keeps the journal and its gap |
| Lifecycle.StartsOnAnyJournal | internal/changejournal/journal.go:158-206 | a worker may start on a journal with any history of runs and restarts |
| Lifecycle.OneDrainAtATime | internal/watchsupervisor/worker.go:203-244 | at most one drain works in any interleaving |
| Lifecycle.StoppedIsQuiet | internal/watchsupervisor/worker.go:360-383 | once stop returns no step changes the journal again and its gap is set |
| Lifecycle.FlushCatchesUp | internal/watchsupervisor/worker.go:225-244 | a flush that finishes has committed everything observed before it was called |
| Lifecycle.FlushIsNotTurnedAway | internal/watchsupervisor/worker.go:225-244 | a flush fails only with its own drain or by a stop |
| Lifecycle.InspectIsExact | internal/watchsupervisor/worker.go:252-280 | when a drain is refused, has nothing to do, or starts, and with which mark and mode |
| Lifecycle.SuccessIsExact | internal/watchsupervisor/worker.go:281-312 | a drain takes off what its snapshot held, and closes the gap exactly when it set out to and nothing broke since |
| Lifecycle.FlushCanFinish | internal/watchsupervisor/worker.go:225-244 | from any state that is not stopping and not draining a flush can finish with nothing pending and no gap |
| HostSettings.BoundsAlwaysHold | internal/hostsettings/settings.go:246-279 | window and ceiling stay in their bounds and in order for every proposal, overflowing ones included |
| HostSettings.ProposalIsClamped | internal/hostsettings/settings.go:272-279 | a proposal that fits is honoured up to the bounds, once and for all |
| HostSettings.ProposalHonouredExactly | internal/hostsettings/settings.go:272-279 | a proposal is honoured if and only if it fits a duration or wraps past the upper bound |
| HostSettings.OverflowFallsToTheFloor | internal/hostsettings/settings.go:276-277 | a concrete overflowing proposal gets the smallest window |
| HostSettings.WindowFollowsItsSetting | internal/hostsettings/settings.go:246-249 | the window is its setting within 200 milliseconds and a minute |
| HostSettings.CeilingFollowsItsSetting | internal/hostsettings/settings.go:251-260 | the ceiling is its setting within a second and ten minutes, never below the window |
| HostSettings.NoProposalChangesNothing | internal/hostsettings/settings.go:272-279 | no proposal leaves the settings alone, and none touches the ceiling's |
| Deferral.DeferralIsBounded | internal/watchsupervisor/worker.go:117-176 | nothing stays unsettled past the ceiling; no settle comes before the window unless the ceiling fired |
| Deferral.SettledWithinCeiling | internal/watchsupervisor/worker.go:126-176 | more time than the ceiling cannot pass without the batch being settled |
| Deferral.SettledWhenQuiet | internal/watchsupervisor/worker.go:126-176 | once changes stop, the batch is settled within one window |
| Deferral.FiringSettles | internal/watchsupervisor/worker.go:166-174 | a timer that fires settles the batch and disarms both timers |
| Supervisor.OneStartPerProject | internal/watchsupervisor/supervisor.go:288-303 | one start per project is in flight, and the raced branch is never taken |
| Supervisor.EveryWatcherIsAccountedFor | internal/watchsupervisor/supervisor.go:359-397 | each opened watcher is held by one start, registered once, stopping or closed |
| Supervisor.SettledMeansRegisteredOrClosed | internal/watchsupervisor/supervisor.go:330-403 | with nothing in flight every watcher is registered or closed |
| Supervisor.NothingAfterClose | internal/watchsupervisor/supervisor.go:269-286 | nothing is registered after Close |
| Supervisor.EverythingEnds | internal/watchsupervisor/supervisor.go:330-449 | every run can be carried on until nothing is in flight and every watcher is registered or closed |
| Supervisor.Supervisor.TryBegin | internal/watchsupervisor/supervisor.go:288-300 | a start begins only for a project neither running nor starting |
| Supervisor.Supervisor.TryRegister | internal/watchsupervisor/supervisor.go:385-397 | a worker is registered only if open and alone |
| Supervisor.Supervisor.Release | internal/watchsupervisor/supervisor.go:441-449 | a released worker is handed out once |
| Supervisor.Supervisor.Close | internal/watchsupervisor/supervisor.go:269-286 | closing hands out every worker once |
| Toml.SplitKey | internal/codexconfig/merge.go:250-301 | the scanning loop computes SplitKeyPath |
| Toml.RenderString | internal/codexconfig/entry.go:94-119 | the printing loop computes TomlString |
| Toml.HeaderRoundTrip | internal/codexconfig/merge.go:213-227 | a printed header parses back to its path if and only if the name has no control character |
| Toml.HeaderParses | internal/codexconfig/merge.go:250-301 | what any printed header parses to |
| Toml.StringRoundTrip | internal/codexconfig/entry.go:94-119 | every printed string reads back under TOML's rules, whatever it holds |
| TomlPaths.PathParses | internal/codexconfig/merge.go:250-301 | any dotted path of bare, basic and literal segments splits into its names |
| TomlPaths.MalformedIsRefused | internal/codexconfig/merge.go:250-301 | a trailing dot or an unclosed string is refused |
| TomlPaths.HeaderIsRead | internal/codexconfig/merge.go:213-227 | an indented or commented header reads as its path |
| TomlPaths.KeyNameIsExact | internal/codexconfig/merge.go:229-246 | what a key line is taken to assign to: right exactly when bare or directly before its equals sign |
| EntryReads.EntryReadsBack | internal/codexconfig/entry.go:75-134 | a rendered entry reads back as its address, token variable, timeouts and enabled flag, each key assigned once |
| CodexLines.ReadBack | internal/codexconfig/merge.go:303-317 | splitting joined lines gives them back, without stray carriage returns |
| CodexLines.CrlfReadsTheSame | internal/codexconfig/merge.go:303-310 | a document with CRLF line ends reads as the same lines |
| CodexLines.TrimIsUnique | internal/codexconfig/merge.go:339-345 | trimming is the one prefix with a solid end and a blank remainder |
| CodexConfig.ManagedRegion | internal/codexconfig/merge.go:151-164 | the marker loop computes the first region |
| CodexConfig.ServerTable | internal/codexconfig/merge.go:168-190 | the table loop computes the server's span with its sub-tables |
| CodexConfig.InlineServerKey | internal/codexconfig/merge.go:194-210 | the key loop computes the first inline key |
| CodexConfig.LocateEntry | internal/codexconfig/merge.go:60-74 | a region wins over a table, a table over an inline key |
| CodexRegions.RegionReadsBack | internal/codexconfig/merge.go:139-149 | a rendered region splits into its lines, whatever the entry holds |
| CodexRegions.InnerIsQuiet | internal/codexconfig/entry.go:75-89 | no rendered entry contains a marker |
| CodexMerge.MergedIsLocated | internal/codexconfig/merge.go:80-114 | a merged entry is located at exactly its block if and only if no begin marker stands before it |
| CodexMerge.BalancedIsExact | internal/codexconfig/merge.go:151-164 | a document whose begin markers all have an end meets that condition |
| CodexMerge.MergeIsIdempotent | internal/codexconfig/merge.go:80-114 | merging again changes nothing, if and only if that condition held |
| CodexMerge.RemoveUndoesMerge | internal/codexconfig/merge.go:121-136 | what removal leaves after any merge: the original lines, what it would have left before a refresh, or the lines around a table replaced by force |
| CodexMerge.RemoveKeepsAppendedExactly | internal/codexconfig/merge.go:121-136 | the original lines are kept, trailing blanks aside, if and only if no loose begin marker stood among them |
| CodexOutcomes.LocateIsExact | internal/codexconfig/merge.go:60-74 | which lines make an entry managed, foreign, inline or absent, and what span it has, sub-tables included |
| CodexOutcomes.MergeIsExact | internal/codexconfig/merge.go:80-114 | every answer of a merge and exactly when it is given |
| CodexOutcomes.WrittenIsExact | internal/codexconfig/merge.go:92-107 | the lines of a merged document |
| CodexOutcomes.UnforcedMergeKeepsLines | internal/codexconfig/merge.go:76-101 | a merge without force keeps every line outside LCTK's own region |
| CodexOutcomes.ForeignEntryIsRefused | internal/codexconfig/merge.go:98-104 | without force a table or key of the name that LCTK did not write is refused |
| CodexOutcomes.RemoveIsExact | internal/codexconfig/merge.go:121-136 | a removal takes out the region and nothing else, and refuses to leave what does not parse |
| CodexOutcomes.NothingToRemove | internal/codexconfig/merge.go:121-125 | without a region the document is returned as it is |
| CodexNeighbours.EntryNameInjective | internal/codexconfig/entry.go:39-54 | distinct identifiers have distinct entry names |
| CodexNeighbours.NameShowsTheProject | internal/codexconfig/entry.go:39-54 | a name is a bare key: the prefix and the identifier, hyphens lowered |
| CodexNeighbours.BlockIsHarmless | internal/codexconfig/merge.go:168-210 | one project's region looks like nothing of another's |
| CodexLayout.RegionIsLocated | internal/codexconfig/merge.go:60-74 | each project of a layout is located at exactly its own region |
| CodexLayout.LackingIsAbsent | internal/codexconfig/merge.go:60-74 | a project without a region is absent |
| CodexRuns.RegionsStayExact | internal/codexconfig/merge.go:80-136 | any sequence of merges and removals leaves the user's lines in order and one disjoint region per present project, each located exactly |
| CodexRuns.StepLaid | internal/codexconfig/merge.go:80-136 | one operation keeps that layout |
| Glob.CompileGlob | spikes/search-backend-evaluation/zoektadapter/adapter.go:454-510 | the compiling loop computes GlobRegexp, refusals included |
| GlobMeaning.GlobMeansMatch | spikes/search-backend-evaluation/zoektadapter/adapter.go:454-510 | a glob, classes included, compiles to a well-formed expression accepting exactly what a direct matcher does |
| GlobMeaning.EmitParses | spikes/search-backend-evaluation/zoektadapter/adapter.go:459-509 | the emitted text parses to the intended expression |
| GlobMeaning.MeaningMatches | spikes/search-backend-evaluation/zoektadapter/adapter.go:462-477 | that expression's language is what the direct matcher accepts |
| GlobMeaning.RefusedExactly | spikes/search-backend-evaluation/zoektadapter/adapter.go:454-490 | exactly which globs are refused |
| GitStatus.Parse | internal/gitinfo/parse.go:26-81 | the field loop computes ParseStatus |
| GitStatus.Status.ReadRecord | internal/gitinfo/parse.go:34-73 | one record is read, a rename with its origin |
| GitRoundTrip.StatusIsParsed | internal/gitinfo/parse.go:26-81 | what parsing makes of any printed status: headers, total, kept prefix, truncation, dirtiness and short commit |
| GitRoundTrip.StatusRoundTrip | internal/gitinfo/parse.go:26-81 | printing then parsing recovers exactly what was printed if and only if no record is a conflict |
| GitRoundTrip.TakeRecord | internal/gitinfo/parse.go:50-59 | a rename's origin is never read as a record |
| GitRoundTrip.CodeTells | internal/gitinfo/parse.go:162-200 | a two-letter code is read as its index and working-tree states, the index first |
| GitRoundTrip.CountIsRead | internal/gitinfo/parse.go:115-121 | a printed count reads back up to the largest integer and is nothing past it |
| GitRoundTrip.ShortRecordsAreDropped | internal/gitinfo/parse.go:123-155 | a record that ends before its path, or has an empty one, is no change |
| GitRoundTrip.OtherHeadersAreIgnored | internal/gitinfo/parse.go:83-111 | a header of another name or without a value changes nothing |
| GitRoundTrip.ConflictsAreMisread | internal/gitinfo/parse.go:61-64 | the parse of a status whose only record is a conflict: clean, or another path, for every path |
| Update.Fleet.SwitchRunningProjects | cmd/lctk/update.go:196-208 | the switching loop computes Switch |
| Update.Fleet.RestoreProjects | cmd/lctk/update.go:210-227 | the restoring loop computes Restore, last project first, every one tried |
| Update.Fleet.ApplyUpdate | cmd/lctk/update.go:154-168 | the apply part computes Apply |
| Update.Fleet.RollbackRegisteredProjects | cmd/lctk/update.go:278-308 | the three passes compute RollbackAll |
| Update.UpdateIsAllOrNothing | cmd/lctk/update.go:154-168 | on success all run the target; otherwise all run the previous release but those reported and the one whose own Stop failed |
| Update.FailuresAreExact | cmd/lctk/update.go:210-227 | the joined error names each unrestored project once and no other |
| Update.OthersAreUntouched | cmd/lctk/update.go:196-227 | a project that was not running is left alone |
| Update.MigratedIsPrefix | cmd/lctk/update.go:196-208 | which projects are listed as migrated, and which operation ended the switch |
| Update.CleanRollback | cmd/lctk/update.go:278-308 | a clean rollback restores every schema and restarts exactly what ran |
| Update.StopFailureTouchesNoSchema | cmd/lctk/update.go:282-290 | a failed Stop ends the rollback before any schema is touched, naming every such project |
| Update.RestoreFailureStartsNothing | cmd/lctk/update.go:291-298 | a failed restore ends the rollback before anything is started |
| UpdateOutcomes.UpdateSucceedsExactly | cmd/lctk/update.go:154-173 | an update succeeds exactly when the image, every stop and start, and the host succeed |
| UpdateOutcomes.CauseIsExact | cmd/lctk/update.go:154-168 | which cause a failure carries: the image, the first project and operation that failed, or the host |
| UpdateOutcomes.ProjectsEndExactly | cmd/lctk/update.go:196-227 | the state of every running project after a failed update, unrestored ones included |
| UpdateOutcomes.FailuresAreListed | cmd/lctk/update.go:210-227 | the joined error, the last project first |
| UpdateOutcomes.RollbackReportsExactly | cmd/lctk/update.go:278-308 | what a rollback reports, phase by phase, in order; so it succeeds exactly when none of it fails |
| UpdateOutcomes.StartFailureStopsNoOther | cmd/lctk/update.go:299-306 | one project that fails to start keeps no other from starting |
| Activation.DocumentLaunches | internal/installation/activation.go:329-374 | a document naming a verified core launches it |
| Activation.StoringIsSafeExactly | internal/installation/activation.go:129-138 | storing a core leaves what launches alone if and only if it goes to another file or is the active core again |
| Activation.ReinstallIsSafeExactly | internal/installation/activation.go:129-138 | the same by version |
| Activation.TempsDoNotLaunch | internal/installation/activation.go:394-424 | temporary files in any state change nothing that launches |
| Activation.LoadsExactly | internal/installation/activation.go:329-358 | which documents load: right schema, complete active core, complete previous core or none |
| Activation.LaunchStaysInside | internal/installation/activation.go:360-392 | what launches is a verified file inside the home |
| ActivationManager.PassesLaunch | internal/installation/activation.go:394-424 | a trace between two disks always launches one of their cores |
| ActivationManager.InstallCommits | internal/installation/activation.go:154-177 | the new document launches the verified target and keeps a verified rollback target |
| ActivationManager.StoreThenLaunch | internal/installation/activation.go:232-280 | a delivered download leaves the old core launching, or repairs it |
| ActivationManager.StoredVerifies | internal/installation/activation.go:232-280 | a stored download verifies |
| ActivationManager.Manager.WriteActivation | internal/installation/activation.go:394-424 | every disk state is the old or the new document's, temporary files aside |
| ActivationManager.Manager.Download | internal/installation/activation.go:232-280 | succeeds exactly when nothing is unfinished, the signed size and digest arrive, and they can be stored |
| ActivationManager.Manager.Install | internal/installation/activation.go:121-178 | succeeds exactly when there is space, a verified or delivered core, a self-test and a written document; at every disk state the launcher finds the old core or the verified new one, for every version under the exact condition |
| ActivationManager.Manager.Adopt | internal/installation/activation.go:183-230 | an existing activation is never changed; an empty home launches nothing or the verified copy |
| ActivationManager.Manager.Rollback | internal/installation/activation.go:286-326 | at every disk state the launcher finds the active core or the verified previous one; the document swaps them |
| ActivationManager.Manager.InstallThenRollback | internal/installation/activation.go:121-326 | install then rollback gives back the core that was active |
| ActivationManager.Manager.RollbackTwice | internal/installation/activation.go:305-326 | two rollbacks give back the document but for its timestamp |
| Nest.NestSymbols | spikes/symbol-backend-evaluation/engines/treesitter.go:225-243 | the in-place sort and stack loop compute Nested of the stable sort |
| Nest.SortIsStable | spikes/symbol-backend-evaluation/engines/treesitter.go:226-231 | symbols of one range keep their order |
| Nest.TopIsInnermost | spikes/symbol-backend-evaluation/engines/treesitter.go:233-241 | the top of the stack is the latest enclosing symbol |
| Nest.InnermostIsSmallest | spikes/symbol-backend-evaluation/engines/treesitter.go:221-225 | every other enclosing symbol encloses it too |
| Nest.NestingIsContainment | spikes/symbol-backend-evaluation/engines/treesitter.go:225-243 | on a nested family each symbol gets the innermost earlier symbol that encloses it, and only its container changes |
| Indexer.Service.Full | spikes/search-backend-evaluation/zoektadapter/adapter.go:109-148 | a full build succeeds exactly when every file can still be read and the builder does its part, stores the inventory as the next generation, and a failure stores nothing |
| Indexer.Service.Apply | spikes/search-backend-evaluation/zoektadapter/adapter.go:150-198 | the change loop computes Applied; a failure stores nothing |
| Indexer.Service.Reconcile | spikes/search-backend-evaluation/zoektadapter/adapter.go:200-223 | the applied list is a difference of manifest and inventory |
| Indexer.Service.Difference | spikes/search-backend-evaluation/zoektadapter/adapter.go:209-220 | the two map walks name each differing path exactly once |
| Indexer.PatchReadsTheDisk | spikes/search-backend-evaluation/zoektadapter/adapter.go:162-189 | each named file ends as the disk has it, others unchanged, later duplicates ignored |
| Indexer.RefusedExactly | spikes/search-backend-evaluation/zoektadapter/adapter.go:162-189 | a change list is refused, whole, exactly when a path leaves the project or a first-named file cannot be read |
| Indexer.ReconcileConverges | spikes/search-backend-evaluation/zoektadapter/adapter.go:200-223 | over a stable workspace the manifest becomes the inventory from any start, and the generation rises exactly when something differed |
| Indexer.SecondReconcileIsIdle | spikes/search-backend-evaluation/zoektadapter/adapter.go:200-223 | a second reconciliation finds nothing |

## Left out

- Sequence, generation and gap counters are unbounded; their 64-bit wrap-around is not modelled.
- The human-readable detail of a gap, and the times in a view, are not modelled.
- The kernel's event queue is one list with an overflow marker; platform quirks of the native watcher are not modelled.
- Which directories are watched is an environment choice in the protocol; the registry itself is modelled in `Watcher`, with path normalisation and the exclusion rules as parameters, and the walk over a new directory as the list of what it visits.
- The index service is any service that reads each path at some moment between request and answer and publishes all or nothing; its own first build is not modelled, and files it would skip are not part of the disk.
- Save's unlocked write and its dirty flag: restart safety rests on the gap that opening always adds, and the protocol may save at any time.
- The watcher's channels close only through Close, which the worker's loop calls last.
- HostSettings.BoundsAlwaysHold: does not model the idle-stop duration, which nothing else here depends on.
- Deferral.SettledWithinCeiling: assumes a due timer is taken before time moves on, and Go's timers since 1.23, whose Stop and Reset leave no stale firing.
- Supervisor: a released worker's stop is one step; its inside is `Lifecycle`.
- Journal.PendingLocked sorts by inserting while it walks the map; the source sorts afterwards.
- CRLF is folded when a document is read, so documents are compared by lines; a line that ends in a bare carriage return is outside the merge theorems.
- The TOML parser is any predicate on documents; floating-point timeouts are the decimal text printed for them.
- CodexConfig.ServerTable: takes the header parser as a parameter, which LocateEntry gives it; likewise the other loops.
- CodexRuns.RegionsStayExact: assumes project identifiers of lower-case letters, digits and hyphens, the entry named for its project, and a document without the projects' markers or entries.
- GlobMeaning.GlobMeansMatch: excludes classes with a backslash, a named class, a backward range or nothing after the sign, whose text is copied unparsed into the expression, non-ASCII bytes and paths with newlines.
- The host's path separator is the slash, so converting separators is the identity.
- Update.UpdateIsAllOrNothing: containers, images and health checks are operations that may fail and leave a project in any state; when the host's own rollback fails after the projects were rolled back, the projects stay on the previous release.
- ActivationManager.Manager.Install: requires the condition of StoringIsSafeExactly, and a document that does not name itself or a temporary file as a core; digests, JSON, path cleaning and which steps of the disk, network and self-test fail are parameters, versions are single path components, and other processes do not write the home.
- Nest.NestSymbols: the library's stable sort is one step, given by an insertion sort.
- Indexer.Service.Difference lists differences in any order; the source sorts them by path, which ReconcileConverges shows cannot matter.
- Indexer.Service.Apply: the search shards beside the manifest are not modelled.
- HTTP handlers, tool registration, command-line parsing, setup, grants, resource budgets and audit logs add no deep invariant.
