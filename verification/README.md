# Tinymist, verified

A Dafny model of the stateful cores of Tinymist, the language server for Typst, with proofs
of what they promise. `dafny verify dfyconfig.toml` checks everything.

Two protocols are composed. The *file watcher* (`WatchModel`, `WatchActor`) keeps one entry
per dependency, reads files when they may have changed, and sends changesets to its
consumer; a file found empty or missing is held back in an episode until a recheck. The
*project compiler* (`CompilerModel`, `Compiler`) lays editor buffers over the watcher's
view; a buffer event that may uncover a file makes a round trip through the watcher first.
`Composition` joins them over two lossless channels in order, and every interleaving of
their steps, with any disk and any answer of the operating system, is a run. The third
protocol is the *request lifecycle* (`RequestModel`, `RequestClient`): registering,
cancelling, answering and scheduled futures race on a locked table whose ids are reused;
every lock section is one step (`RequestRuns`, `RequestGuarantees`, `RequestAnswers`).

Around them stand the linter's scope tracking (`LintModel`, `LintPaths`, `Lint`), coverage
instrumentation (`CoverageModel`, `CoverageProbes`, `Coverage`) and three text formats:
message framing (`Framing`, `FramingIo`, `Utf8`; Language Server Protocol 3.17, Base
Protocol, Header Part and Content Part), message templates (`Template`) and locale files
(`Locale`, `LocaleFiles`).

What the source does step by step on mutable state is a class or a loop here, proved
against functions on plain values; the theorems are about those functions. The environment
is an argument or a nondeterministic choice: the content of a file at each read, whether a
watch command succeeds, the order of a hash map, which recheck fires, which task runs next.
Serial numbers of reads and of memory events are history; no branch looks at them. The
order of the files from general to particular: `Options`, `Sequences`, `Bytes`, `Decimal`;
`Vfs`, `WatchModel`, `WatchInvariant` (what each path keeps), `WatchRuns` (whole events and
runs), `WatchGuarantees`, `WatchMissing`, `WatchChanges`, `WatchActor`; `CompilerModel`,
`Compiler`, `Composition`, `SystemGuarantees`, `SystemRuns`, `Announcements`; then the rest.

## Where the code and its documentation differ

- A recheck is meant to act only if nothing happened since, but
  `crates/tinymist-project/src/watch.rs:648` takes the state before line 657 compares the
  ticks: a stale recheck silently closes a newer episode. `WatchMissing.EpisodeShownIff`
  says exactly when an episode is shown, `WatchMissing.StaleRecheckHidesRemoval` gives a run
  in which a removed file stays shown with no recheck left to correct it.
- An episode keeps an error as its payload when the file is found empty again
  (`crates/tinymist-project/src/watch.rs:585`), so an empty file may end up shown as
  missing: `WatchChanges.PayloadIsLatestIff` is the exact condition,
  `WatchChanges.EmptyShownMissing` a run.
- The compiler's logical tick never advances in `crates/tinymist-project/src/compiler.rs`,
  so with two delayed events under way the first return clears the dirty mark (lines
  748-751) and a later event may overtake the second. `SystemGuarantees.OrderIff` is the
  exact condition for the order and `SystemGuarantees.BufferIsRightIff` for the buffers;
  `SystemRuns.Overtaken` is a run, and `SystemRuns.ReopenedBufferIsLost` one in which a
  reopened buffer is lost by it.
- A second future scheduled for a pending request is dropped without a message
  (`crates/sync-lsp/src/server.rs:669`): `RequestGuarantees.OneFutureWaits`.
- The region kept aside for the file called last is not renewed when the file is
  instrumented again (`crates/tinymist-debug/src/cov.rs:216`):
  `Coverage.CoverageMap.StaleIff` says exactly when calls miss the new region.
- The end of the input between two header lines is reported as the absence of a message,
  not as an error (`crates/sync-lsp/src/msg.rs:216`): `Framing.NoMessageIff`.
- A header of a locale file loses its last character whatever it is
  (`crates/tinymist-l10n/src/lib.rs:250`), and a lone bracket panics; the model does the same.
- The body of a `context` expression is written without what stands between the keyword and
  the body (`crates/tinymist-debug/src/cov.rs:323`): `CoverageModel.EraseEmit` says exactly
  when instrumentation loses text.

## Model

| member | source | states |
|---|---|---|
| WatchGuarantees.ContentIsShown | crates/tinymist-project/src/watch.rs:522-625 | One-read synchronisation: in every run, for every watched path whose latest read found content, the fold of all sent changesets holds exactly that content, and no episode is open |
| WatchGuarantees.PreviousContentIsShown | crates/tinymist-project/src/watch.rs:522-625 | In every run, a previous snapshot with content means that the entry is Stable and that the consumer sees that snapshot |
| WatchGuarantees.NeverBackInTime | crates/tinymist-project/src/watch.rs:522-670 | In every run, the snapshots sent for a path, directly or as a recheck payload, come from strictly increasing reads of that path |
| WatchGuarantees.WatchLedger | crates/tinymist-project/src/watch.rs:351-519 | In every run, what the operating system watches is exactly the entries marked watching plus the paths whose last unwatch reported an error; no path is watched twice or unwatched while unwatched; watching implies seen |
| WatchGuarantees.LedgerSplits | crates/tinymist-project/src/watch.rs:421-443 | A disciplined command history: the system watches the held paths and the strays, and these are disjoint |
| WatchGuarantees.NoStrays | crates/tinymist-project/src/watch.rs:402-409 | With unwatches that succeed there are no strays, so the ledger is exact |
| WatchGuarantees.ThirtyUpdateWindow | crates/tinymist-project/src/watch.rs:351-419 | In every run, the entries are exactly the union of the last thirty dependency sets and exactly the domain of the consumer's view; the lifetime subtraction never underflows; no changeset both inserts and removes a path |
| WatchGuarantees.EveryEpisodeIsQueued | crates/tinymist-project/src/watch.rs:547-581 | In every run, an open episode has a recheck with its path and tick queued |
| WatchGuarantees.Drain | crates/tinymist-project/src/watch.rs:628-670 | Any order of the queued rechecks can be drained; each path is closed by its first recheck, and its payload is shown iff that one carries the tick of the episode |
| WatchGuarantees.NoLimbo | crates/tinymist-project/src/watch.rs:628-670 | Draining all rechecks, in any order, leaves every entry Stable |
| WatchGuarantees.RecheckIsNotContradicted | crates/tinymist-project/src/watch.rs:628-670 | A recheck that sends: no read since its episode began found content, its payload is the latest erroneous one of these reads (the first of them if none is) and newer than all that was sent, and the consumer then sees it |
| WatchGuarantees.SettledContent | crates/tinymist-project/src/watch.rs:522-625 | The same synchronisation from any settled state, not only from start-up |
| WatchGuarantees.FireEffect | crates/tinymist-project/src/watch.rs:628-670 | One recheck closes the episode of its path, touches no other path, and shows the payload iff the ticks agree |
| WatchMissing.MissingFileConverges | crates/tinymist-project/src/watch.rs:547-670 | Missing-file convergence, from the reads alone: an episode of p is open and no recheck of another one is queued, p stays watched, and from some point on p was read with the error every time; then whichever recheck of p fires shows the error and leaves the entry Stable |
| WatchMissing.HeldErrorConverges | crates/tinymist-project/src/watch.rs:547-670 | The same for an episode that holds the error already, also if p is not read again |
| WatchMissing.PayloadIsLatestError | crates/tinymist-project/src/watch.rs:547-625 | The reads decide the payload: in an open episode it is the latest read of the path, if the reads since some point all gave the error |
| WatchMissing.MissingStep | crates/tinymist-project/src/watch.rs:270-334 | Every event other than the recheck of p keeps its episode open, and keeps an error held, when the reads of p give that error |
| WatchMissing.EpisodeShownIff | crates/tinymist-project/src/watch.rs:628-670 | Exact condition: draining shows an open episode iff its own recheck is the first of its path to fire |
| WatchMissing.RemovalIsShown | crates/tinymist-project/src/watch.rs:628-670 | A run that meets the conditions of the convergence: a removed file is shown as missing once its recheck fires |
| WatchMissing.StaleRecheckHidesRemoval | crates/tinymist-project/src/watch.rs:648-657 | Counterexample for every file: removed, restored and removed again; the stale recheck closes the newer episode silently and the removed file stays shown with all rechecks fired |
| WatchChanges.ChangeIsNoticed | crates/tinymist-project/src/watch.rs:522-625 | A change is never lost: a read of a stable entry that differs from the one before, with content or empty or in error, is sent at once or begins an episode with it as payload and its recheck queued |
| WatchChanges.EpisodeBeginsIff | crates/tinymist-project/src/watch.rs:547-606 | A read of a stable entry begins an episode iff it finds no file or an unclassified error, or an empty file after content; of the others exactly the changes are sent |
| WatchChanges.EpisodeGoesOn | crates/tinymist-project/src/watch.rs:547-615 | In an episode an error becomes the payload; a file that differs from the one the episode began with ends it and is sent; the same file changes nothing |
| WatchChanges.ChangeIsShownIff | crates/tinymist-project/src/watch.rs:475-670 | A change of any kind found by a backend event is shown, once the rechecks are drained in any order, iff it was sent at once or the recheck of its own episode fires first |
| WatchChanges.PayloadIsLatestIff | crates/tinymist-project/src/watch.rs:547-602 | Exact condition: what an open episode will show is what was read last iff that is an error or no error was read since the episode began |
| WatchChanges.EmptyShownMissing | crates/tinymist-project/src/watch.rs:547-602 | Counterexample for every file with content: truncated, missing for one read, and empty again; the recheck shows it as missing although it was last read as empty |
| WatchChanges.EventReads | crates/tinymist-project/src/watch.rs:475-486 | Creations, removals, renames, changes of content and unclassified events make the watcher read all their paths it has entries for; accesses, metadata and other changes do nothing |
| WatchChanges.EventUnwatchesIff | crates/tinymist-project/src/watch.rs:488-513 | A backend event takes the watch of a path iff it removes that file or renames it away |
| WatchChanges.PolledIsWatched | crates/tinymist-project/src/watch.rs:446-473 | A poll reads every file it collected and watches exactly those that can be watched now |
| WatchChanges.DependencyIsWatchedIff | crates/tinymist-project/src/watch.rs:351-443 | After an update a dependency is watched iff it was before, or there is a backend and the watch command of its first visit succeeded |
| WatchRuns.StepKeeps | crates/tinymist-project/src/watch.rs:270-334 | Every event the environment can produce keeps the whole watcher invariant |
| WatchRuns.RunKeeps | crates/tinymist-project/src/watch.rs:270-334 | So does every run |
| WatchRuns.UpdateWatchesKeeps | crates/tinymist-project/src/watch.rs:351-419 | A dependency update keeps the invariant: only the visited dependencies are watched, entries date from the last thirty sets, nothing inserted is removed |
| WatchRuns.VisitAllKeeps | crates/tinymist-project/src/watch.rs:366-397 | The visits give every dependency the current lifetime and leave the other entries untouched |
| WatchRuns.RetainAllKeeps | crates/tinymist-project/src/watch.rs:402-416 | The retain loop, in any order: expired entries go and are reported as removed, unseen ones lose their watch, the others stay |
| WatchRuns.Dates | crates/tinymist-project/src/watch.rs:351-419 | The lifetime of an entry dates the last dependency set that mentions it; a missing entry is in none of the last thirty |
| WatchRuns.ReadAllKeeps | crates/tinymist-project/src/watch.rs:475-519 | Reading the paths of a backend event keeps the invariant, the flags and the entries |
| WatchRuns.ForgetAllKeeps | crates/tinymist-project/src/watch.rs:492-513 | Dropping the watches of removed files keeps the invariant |
| WatchRuns.PollAllKeeps | crates/tinymist-project/src/watch.rs:446-473 | Polling the known-missing files keeps the invariant |
| WatchRuns.FireKeeps | crates/tinymist-project/src/watch.rs:628-670 | A recheck keeps the invariant, stale or not |
| WatchInvariant.ReadEntryKeeps | crates/tinymist-project/src/watch.rs:522-625 | One read of a watched path keeps the invariant of every path |
| WatchInvariant.UpdateEntryCases | crates/tinymist-project/src/watch.rs:522-625 | A read is sent, held back for a recheck, kept as payload, or skipped; it is skipped or held only if it found no content or the content already known |
| WatchInvariant.WatchIfNeededKeeps | crates/tinymist-project/src/watch.rs:421-443 | Watching a file that is not watched yet keeps the ledger |
| WatchInvariant.UnwatchKeeps | crates/tinymist-project/src/watch.rs:402-409 | Unwatching a watched path keeps the ledger, whether or not the command succeeds |
| WatchInvariant.RemoveKeeps | crates/tinymist-project/src/watch.rs:411-416 | Removing an unwatched entry keeps the view equal to the fold of the changesets |
| WatchInvariant.RetainOneKeeps | crates/tinymist-project/src/watch.rs:402-416 | One turn of the retain loop keeps the invariant |
| WatchInvariant.VisitOneKeeps | crates/tinymist-project/src/watch.rs:366-397 | One visit keeps the invariant |
| WatchInvariant.DirectKeeps | crates/tinymist-project/src/watch.rs:393-396 | Without a backend every visit is read and sent at once |
| WatchActor.NotifyActor.constructor | crates/tinymist-project/src/watch.rs:208-236 | A fresh actor satisfies the invariant |
| WatchActor.NotifyActor.NotifyEntryUpdate | crates/tinymist-project/src/watch.rs:522-625 | Branch by branch, the entry, the queue and the changeset after a read are those of the model |
| WatchActor.NotifyActor.WatchFileIfNeeded | crates/tinymist-project/src/watch.rs:421-443 | The watch command is given only to an existing file not watched yet, and its result is recorded |
| WatchActor.NotifyActor.VisitDependency | crates/tinymist-project/src/watch.rs:366-397 | One dependency: new lifetime, at most one visit per update, a watch and a read, or without a backend a direct read |
| WatchActor.NotifyActor.VisitDependencies | crates/tinymist-project/src/watch.rs:366-397 | The loop over the dependencies refines the visits of the model |
| WatchActor.NotifyActor.RetainEntry | crates/tinymist-project/src/watch.rs:402-416 | One entry of the retain loop |
| WatchActor.NotifyActor.RetainEntries | crates/tinymist-project/src/watch.rs:402-416 | The retain loop meets every entry exactly once, in an order it chooses, and refines the model for that order |
| WatchActor.NotifyActor.MarkUnseen | crates/tinymist-project/src/watch.rs:357-360 | All entries are unseen afterwards and otherwise as before |
| WatchActor.NotifyActor.UpdateWatches | crates/tinymist-project/src/watch.rs:351-419 | The whole update refines the model for some order of the retain loop |
| WatchActor.NotifyActor.Send | crates/tinymist-project/src/watch.rs:312-315 | A non-empty changeset is passed to the consumer, an empty one is not |
| WatchActor.NotifyActor.OnSyncDependency | crates/tinymist-project/src/watch.rs:312-316 | The handler refines one step of the model and keeps the invariant |
| WatchActor.NotifyActor.OnUpstreamUpdate | crates/tinymist-project/src/watch.rs:339-348 | The answer carries the event back, with a changeset that may be empty; one step of the model, invariant kept |
| WatchActor.NotifyActor.NotifyEvent | crates/tinymist-project/src/watch.rs:475-519 | A backend event: irrelevant kinds change nothing, the others read every path; removals and renames away also drop the watch |
| WatchActor.NotifyActor.OnNotifyEvent | crates/tinymist-project/src/watch.rs:475-519 | The same with the invariant kept |
| WatchActor.NotifyActor.CloseEpisode | crates/tinymist-project/src/watch.rs:628-670 | A due recheck takes the state before it compares the ticks |
| WatchActor.NotifyActor.RecheckNotifyEvent | crates/tinymist-project/src/watch.rs:628-670 | A recheck that comes early changes nothing but the tick |
| WatchActor.NotifyActor.OnRecheckEvent | crates/tinymist-project/src/watch.rs:628-670 | The same with the invariant kept |
| WatchActor.NotifyActor.Candidates | crates/tinymist-project/src/watch.rs:451-457 | Polled are exactly the files that are known to be missing, seen and unwatched, and that exist again, each once |
| WatchActor.NotifyActor.OnPollMissing | crates/tinymist-project/src/watch.rs:446-473 | The poll refines one step of the model and keeps the invariant |
| Vfs.InsertAllAt | crates/tinymist-vfs/src/snapshot.rs:73-116 | A path is in the view after a changeset iff it was there or is inserted; an inserted path has the last of its inserted values, any other keeps its own |
| Vfs.ApplyPushRemove | crates/tinymist-project/src/watch.rs:411-416 | One more removal, of a path not inserted, takes the path out of the view |
| Compiler.ApplyMemoryChanges | crates/tinymist-project/src/compiler.rs:760-774 | Sync starts from no buffers; removals, then insertions in order |
| Compiler.ProjectCompiler.constructor | crates/tinymist-project/src/compiler.rs:376-409 | The compiler starts with logical tick 1, a clean mark and no dedicates |
| Compiler.ProjectCompiler.EmulateMemory | crates/tinymist-project/src/compiler.rs:624-637 | The estimate and the files to invalidate after an event |
| Compiler.ProjectCompiler.ApplyToAll | crates/tinymist-project/src/compiler.rs:639-655 | A direct event reaches the primary and every dedicate |
| Compiler.ProjectCompiler.ProcessMemory | crates/tinymist-project/src/compiler.rs:620-671 | An event is applied directly iff nothing is invalidated and the mark is clean; otherwise it is sent to the watcher with exactly the invalidated paths |
| Compiler.ProjectCompiler.ApplyDelayedMemoryChanges | crates/tinymist-project/src/compiler.rs:736-757 | The event of an answer is applied; the mark is cleared iff the ticks agree |
| Compiler.ProjectCompiler.ProcessFs | crates/tinymist-project/src/compiler.rs:689-732 | Every project applies the delayed event first and the changeset after it; the mark is cleared at most once |
| Compiler.ProjectCompiler.RemoveDedicates | crates/tinymist-project/src/compiler.rs:502-519 | The first dedicate of the id goes and the dependencies are announced; an unknown id changes nothing |
| Compiler.ProjectCompiler.RestartDedicate | crates/tinymist-project/src/compiler.rs:474-500 | A dedicate starts from a copy of the primary's files, in place of one of the same id |
| Compiler.ProjectCompiler.ClearDedicates | crates/tinymist-project/src/compiler.rs:469-471 | All dedicates go |
| Compiler.ProjectCompiler.ProcessCompiled | crates/tinymist-project/src/compiler.rs:540-555 | A finished compilation sends exactly one announcement with its dependencies |
| Announcements.AnnouncedOnce | crates/tinymist-project/src/compiler.rs:502-555 | A finished compilation, and a dedicate that goes, puts exactly one announcement of its dependencies behind the messages sent |
| Announcements.AnnouncedIsRead | crates/tinymist-project/src/compiler.rs:502-555 | In every run, in the turn in which the watcher takes the announcement, every announced path is read, seen and shown, and watched iff it was before or its watch command succeeds |
| Announcements.DedicatesById | crates/tinymist-project/src/compiler.rs:474-519 | In every run dedicates have distinct ids; settling an id drops that one and keeps the others in order, restarting it puts a fork of the primary in its place |
| Announcements.BufferComesFirst | crates/tinymist-vfs/src/overlay.rs:111-118 | In every run a project reads the buffer the applied events call for, and only without one what the watcher showed |
| Announcements.AppliedAtOnceIff | crates/tinymist-project/src/compiler.rs:620-671 | In every run a received event is applied on the spot iff the mark is clean, it inserts everything it removes, and a new start covers every buffer there is; otherwise it goes to the watcher |
| SystemGuarantees.BufferClose | crates/tinymist-project/src/compiler.rs:620-757 | Buffer close, end to end: the round-trip read of an invalidated path finds content c; right after the answer is delivered, whatever happened in between, every project reads exactly c there |
| SystemRuns.CloseShowsDisk | crates/tinymist-project/src/compiler.rs:620-757 | A run that meets the conditions of the buffer close: a buffer is opened over a file and closed again, and the project then reads the disk |
| SystemGuarantees.ExactlyOnce | crates/tinymist-project/src/compiler.rs:620-671 | In every run the received memory events are the disjoint union of applied ones and ones under way; every project holds what the applied events make of the buffers and the delivered changesets of the disk |
| SystemGuarantees.DelayedInOrder | crates/tinymist-project/src/compiler.rs:658-670 | Delayed events are applied in the order of receipt among themselves |
| SystemGuarantees.OrderIff | crates/tinymist-project/src/compiler.rs:639-670 | Exact condition: the overall order is the order of receipt iff no event was applied directly while a delayed one was under way |
| SystemRuns.Overtaken | crates/tinymist-project/src/compiler.rs:748-751 | Counterexample: with two delayed events under way the first return clears the mark, and a third event overtakes the second |
| SystemRuns.ReopenedBufferIsLost | crates/tinymist-project/src/compiler.rs:748-757 | Counterexample for every file and text: removed twice and reopened; the delayed second removal drops the reopened buffer, and with nothing left under way the projects have none while the estimate and the editor do |
| SystemGuarantees.NeverTwoInOrder | crates/tinymist-project/src/compiler.rs:620-671 | In runs that never have two delayed events under way everything is applied in the order of receipt |
| SystemGuarantees.DrainedIsClean | crates/tinymist-project/src/compiler.rs:736-757 | Draining both channels returns the mark to 0 with every received event applied; the projects then hold the buffers the editor sent iff, path by path, the last event applied and the last received that mention it say the same, so they do if nothing was bypassed |
| SystemGuarantees.BufferIsRightIff | crates/tinymist-project/src/compiler.rs:639-757 | Exact condition, path by path and in every run: a project holds the buffer the received events call for iff the last applied and the last received event that mention the path say the same of it; so it does if they are the same event |
| SystemGuarantees.BuffersAt | crates/tinymist-project/src/compiler.rs:760-774 | After any memory events the buffer of a path is what the last event that mentions it says: its last insertion there, or none |
| SystemGuarantees.EstimateIsExact | crates/tinymist-project/src/compiler.rs:620-671 | The estimate is the domain of the buffers after all received events; the invalidated paths cover all an event uncovers and none it leaves covered; a direct event uncovers nothing |
| SystemGuarantees.AnswerShowsContent | crates/tinymist-project/src/watch.rs:339-419 | After the watcher answered a delayed event, the content of its latest read of an invalidated path is in the fold of what it sent |
| SystemGuarantees.RoundTripReads | crates/tinymist-project/src/watch.rs:351-397 | Every invalidated path is read in the round trip |
| SystemGuarantees.DeliveryUncovers | crates/tinymist-project/src/compiler.rs:689-757 | An answer uncovers its invalidated paths in every project |
| SystemGuarantees.LaterDelivery | crates/tinymist-project/src/compiler.rs:689-757 | It does so whenever it is delivered, after any run of both parties |
| SystemGuarantees.OutIsKept | crates/tinymist-project/src/watch.rs:270-334 | What the watcher sent stays sent, in order |
| Composition.NextKeeps | crates/tinymist-project/src/compiler.rs:529-733 | Every step of compiler and watcher, in any interleaving, keeps the invariant of the composed system |
| Composition.RunKeeps | crates/tinymist-project/src/compiler.rs:529-733 | So does every run |
| Composition.LineInsert | crates/tinymist-project/src/compiler.rs:639-670 | Where a direct event joins the line of events: an inversion appears iff something is under way |
| Composition.NextEstimateIs | crates/tinymist-project/src/compiler.rs:624-637 | The emulated estimate is the domain of the buffers after the event |
| Composition.DeliverSteps | crates/tinymist-project/src/compiler.rs:736-757 | An answer brings back the oldest delayed event under way, an update none |
| Composition.WatcherSends | crates/tinymist-project/src/watch.rs:270-334 | A watcher step sends exactly one answer to an upstream event, and otherwise at most one update, which is not empty and says whether a message asked for it |
| Composition.DeliverProjects | crates/tinymist-project/src/compiler.rs:689-732 | All projects stay equal to the fold of applied events and delivered changesets |
| Composition.RestartKeeps | crates/tinymist-project/src/compiler.rs:474-500 | A fork joins with the files of the primary |
| RequestGuarantees.Conservation | crates/sync-lsp/src/server.rs:512-693 | In every interleaving each registration is in exactly one place: pending, claimed by one task, answered by one message, or overwritten |
| RequestGuarantees.NoCrossTalk | crates/sync-lsp/src/server.rs:589-651 | Two messages never answer one registration; a message answers a registration of its id; a result with an identity answers that registration only, also when the id is used again |
| RequestGuarantees.AbortIsSafe | crates/sync-lsp/src/server.rs:539-566 | A set flag of a pending registration means that a cancel is about to answer it, and that its method may be cancelled |
| RequestGuarantees.AnsweredIsWoken | crates/sync-lsp/src/server.rs:645-650 | Whoever answered a request has set its flag: a future still waiting for it is dropped at its next poll and sends nothing |
| RequestGuarantees.QuietMeansSettled | crates/sync-lsp/src/server.rs:657-693 | With no task left, every registration is pending, answered once or overwritten; one that a finished task had a result for is answered once iff it was not overwritten |
| RequestGuarantees.ResultIsSent | crates/sync-lsp/src/server.rs:657-693 | No lost result, whatever races with the future, in every run from every reached state: while it waits no result was taken; a result once taken is what its task carries, for that registration only; a finished task was stopped by the flag, or its result is sent, or another task had claimed, answered or overwritten the registration |
| RequestGuarantees.UnrivalledResultIsSent | crates/sync-lsp/src/server.rs:657-693 | Without a rival answer, cancel or overwrite of the registration the future is never dropped and its result is what is sent; stale tasks of earlier registrations of the id, cancels of a method that may not be cancelled and further futures do no harm |
| RequestGuarantees.DroppedForAReason | crates/sync-lsp/src/server.rs:678-684 | A waiting future is dropped at a poll iff its flag is set, which needs its registration to be gone or a cancel to be in flight |
| RequestGuarantees.NeverStarts | crates/sync-lsp/src/server.rs:532-538 | A future whose flag was set before its first poll is never started, in any run |
| RequestGuarantees.CancelAlone | crates/sync-lsp/src/server.rs:539-566 | A cancel that is not raced: one answer, with the code of a cancelled request, flag set, registration gone |
| RequestGuarantees.OneFutureWaits | crates/sync-lsp/src/server.rs:664-669 | The abort registration is handed out once: in every run at most one future waits, or is going to wait, for a registration; any other one scheduled meanwhile is dropped unpolled with the request still pending |
| RequestAnswers.ReadyAnswerIsSent | crates/sync-lsp/src/server.rs:539-693 | No ready answer is lost, in every run from every reached state: the result or the error a handler has at once, and the answer of a cancel, is sent for its registration once its task is done, unless another task claimed, answered or overwrote the registration |
| RequestAnswers.DirectAnswerIsSent | crates/sync-lsp/src/server.rs:585-651 | A direct answer is sent once its task is done, in every run, unless at a turn of that task nothing was pending under the id |
| RequestAnswers.EveryTaskEnds | crates/sync-lsp/src/server.rs:539-693 | A task that gets five turns with its future ready is done, whatever else happens |
| RequestAnswers.MayBeCancelled | crates/sync-lsp/src/server.rs:540-552 | All document requests and the two named workspace queries may be cancelled; commands and the lifecycle of the server may not |
| RequestRuns.NextKeeps | crates/sync-lsp/src/server.rs:512-693 | Every atomic section keeps conservation, identities and the safety of the flags |
| RequestRuns.RunKeeps | crates/sync-lsp/src/server.rs:512-693 | So does every run |
| RequestRuns.RegisterKeeps | crates/sync-lsp/src/server.rs:512-527 | Registering an id in use overwrites the old registration and no other |
| RequestRuns.ClaimKeeps | crates/sync-lsp/src/server.rs:589-605 | Completing moves the registration from the table to the one task that claims it |
| RequestRuns.MissKeeps | crates/sync-lsp/src/server.rs:591-604 | An answer for a registration that is not current changes nothing |
| RequestRuns.ClaimedKeeps | crates/sync-lsp/src/server.rs:645-650 | The flag is set and the message sent after the lock is released |
| RequestClient.Incoming.Register | crates/sync-lsp/src/req_queue.rs:71-73 | A registration under an id in use replaces the old one |
| RequestClient.Incoming.Get | crates/sync-lsp/src/req_queue.rs:76-78 | A pending request is found by its id |
| RequestClient.Incoming.HasPending | crates/sync-lsp/src/req_queue.rs:88-90 | Whether any request is pending |
| RequestClient.Incoming.Complete | crates/sync-lsp/src/req_queue.rs:114-116 | Completing takes the request out of the table |
| RequestClient.LspClient.constructor | crates/sync-lsp/src/server.rs:440-452 | No request is pending at first |
| RequestClient.LspClient.RegisterRequest | crates/sync-lsp/src/server.rs:512-527 | A request is registered with a fresh identity, flag and abort registration |
| RequestClient.LspClient.CancelRequest | crates/sync-lsp/src/server.rs:540-552 | The first section of a cancel |
| RequestClient.LspClient.Respond | crates/sync-lsp/src/server.rs:585-587 | A direct answer |
| RequestClient.LspClient.ScheduleTail | crates/sync-lsp/src/server.rs:657-669 | The registration is captured and its abort registration taken before dispatch |
| RequestClient.LspClient.RespondIfCurrent | crates/sync-lsp/src/server.rs:589-605 | The locked section claims the request iff it is pending and, if an identity is given, is that registration |
| RequestClient.LspClient.Advance | crates/sync-lsp/src/server.rs:554-693 | Each further section of a task is one step of the model |
| OutgoingQueue.SameIdIff | crates/sync-lsp/src/req_queue.rs:136-140 | Two allocated ids are equal iff their numbers differ by whole rounds of the 32-bit counter |
| OutgoingQueue.Outgoing.AllocRequestId | crates/sync-lsp/src/req_queue.rs:136-140 | Ids are given out in order |
| OutgoingQueue.Outgoing.Register | crates/sync-lsp/src/req_queue.rs:144-148 | A handler is kept under the allocated id, and none that waits is lost within the first round of the counter |
| OutgoingQueue.Outgoing.Complete | crates/sync-lsp/src/req_queue.rs:151-153 | A response takes its handler once |
| Lint.Linter.LintAll | crates/tinymist-lint/src/lib.rs:114-122 | For every file exactly the statements a path of parts leads to are reported, if their frames deserve it, and exactly the functions a path leads to are handed to the late pass; the contexts are restored |
| Lint.Linter.Expr | crates/tinymist-lint/src/lib.rs:646-715 | For every expression and every context: what is reported, handed to the late pass and recorded in the enclosing loop and function is given by the visited statements and their frames |
| Lint.Linter.VisitLoop | crates/tinymist-lint/src/lib.rs:124-137 | The condition or iterable and the body run in the loop's own context; the outer one is back afterwards |
| Lint.Linter.EnterFunc | crates/tinymist-lint/src/lib.rs:139-150 | A function starts outside all loops and remembers the loop around it |
| Lint.Linter.LeaveFunc | crates/tinymist-lint/src/lib.rs:151-165 | The late pass gets the account of the function; loop and function context are back |
| Lint.Linter.VisitClosure | crates/tinymist-lint/src/lib.rs:310-317 | Parameters and body are visited as parts of the function |
| Lint.Linter.VisitContextual | crates/tinymist-lint/src/lib.rs:298-308 | A contextual expression is a function too |
| Lint.Linter.BadBranch | crates/tinymist-lint/src/lib.rs:167-188 | The trace names the loop directly around the function, if there is one |
| Lint.Linter.VisitBreak | crates/tinymist-lint/src/lib.rs:319-326 | A break marks the enclosing loop or is reported |
| Lint.Linter.VisitContinue | crates/tinymist-lint/src/lib.rs:328-335 | A continue marks the enclosing loop or is reported |
| Lint.Linter.VisitReturn | crates/tinymist-lint/src/lib.rs:337-348 | A return marks the enclosing function with whether it has a result, or is reported; its result is not visited |
| LintModel.ReportedIff | crates/tinymist-lint/src/lib.rs:319-348 | A diagnostic is reported iff a visited statement deserves it by its frames alone |
| LintModel.LatePassIff | crates/tinymist-lint/src/lib.rs:392-405 | The late pass sees a return iff a visited return of the function is not nested in an inner closure or contextual expression |
| LintModel.LastReturnIff | crates/tinymist-lint/src/lib.rs:337-341 | The same for any list of visits |
| LintModel.AroundLoop | crates/tinymist-lint/src/lib.rs:124-137 | Saving and restoring around a loop: breaks and continues inside do not count outside, returns do |
| LintModel.AroundFunc | crates/tinymist-lint/src/lib.rs:139-155 | Saving and restoring around a function: nothing inside counts outside |
| LintModel.VisitsWithin | crates/tinymist-lint/src/lib.rs:646-715 | Every visited statement lies inside the frames of the expression |
| LintPaths.VisitedIff | crates/tinymist-lint/src/lib.rs:646-853 | Completeness from the syntax tree: a statement is visited with some frames iff a path of parts leads to it through them; left out are only the result of a return and the patterns of for loops and assignments |
| LintPaths.DiagnosticIff | crates/tinymist-lint/src/lib.rs:319-348 | A diagnostic is reported about a file iff a path leads to a break or continue outside all frames or directly in a function, with the loop around that function, or to a return outside all functions |
| LintPaths.LatePassesIff | crates/tinymist-lint/src/lib.rs:298-317 | Exactly the closures and contextual expressions a path leads to are handed to the late pass |
| LintPaths.LateSays | crates/tinymist-lint/src/lib.rs:337-341 | The late pass is told of a return iff a path through no other function leads to one, and of the last one visited whether it has a result |
| CoverageModel.EraseEmit | crates/tinymist-debug/src/cov.rs:276-398 | Erasure, exactly: deleting what was added gives back all source texts in order iff no contextual expression visited as one has text besides its body; otherwise some are missing |
| CoverageModel.EmitBalanced | crates/tinymist-debug/src/cov.rs:400-446 | The opening and closing entries of any instrumented tree form a balanced word |
| CoverageModel.ProbeIsNumbered | crates/tinymist-debug/src/cov.rs:400-406 | Every probe of a file stands in the rendered text as the call with the number of the probes before it, and the entry of that number is its own |
| CoverageModel.EntryHasProbe | crates/tinymist-debug/src/cov.rs:400-406 | Every entry of a file is that of a probe in its text |
| CoverageModel.RenderConcat | crates/tinymist-debug/src/cov.rs:400-406 | Numbering as one goes is numbering afterwards |
| CoverageModel.EraseContextual | crates/tinymist-debug/src/cov.rs:323-328 | What a contextual expression loses |
| CoverageProbes.CodeBlockIsProbed | crates/tinymist-debug/src/cov.rs:408-428 | A code block has an entry with the span of its first child and one with that of its last, detached where there is none, around the entries of its children |
| CoverageProbes.BodyIsProbed | crates/tinymist-debug/src/cov.rs:266-305 | Every child of a loop, conditional or closure that has the span of a body is probed like a code block, every other child has its own entries, in order |
| CoverageProbes.ShowIsProbed | crates/tinymist-debug/src/cov.rs:306-322 | The transform of a show rule has one entry with its span, before its own entries if it is a set rule and after them otherwise |
| CoverageProbes.OthersPassOn | crates/tinymist-debug/src/cov.rs:389-398 | Other nodes have the entries of their children in order |
| CoverageProbes.ContextualPassesOn | crates/tinymist-debug/src/cov.rs:323-328 | A contextual expression has the entries of its body |
| CoverageProbes.CodeBlockText | crates/tinymist-debug/src/cov.rs:408-428 | In the text of a code block the call of its first probe stands right inside its added brace and that of its last right before the closing one |
| CoverageProbes.ShowSetText | crates/tinymist-debug/src/cov.rs:430-435 | The text of a wrapped set rule |
| CoverageProbes.ShowTransformText | crates/tinymist-debug/src/cov.rs:437-446 | The text of another wrapped transform: bound once, then a call of its probe in front of its use |
| Coverage.InstrumentWorker.VisitNode | crates/tinymist-debug/src/cov.rs:276-387 | Branch by branch, the text and the entries written are those of the pieces emitted for the node |
| Coverage.InstrumentWorker.VisitNodeFallback | crates/tinymist-debug/src/cov.rs:389-398 | A leaf writes its text, other nodes their children |
| Coverage.InstrumentWorker.MakeCov | crates/tinymist-debug/src/cov.rs:400-406 | A probe is numbered by the entries before it |
| Coverage.InstrumentWorker.InstrumentBlockChild | crates/tinymist-debug/src/cov.rs:266-274 | The children with the spans of the bodies become blocks |
| Coverage.InstrumentWorker.InstrumentBlock | crates/tinymist-debug/src/cov.rs:408-428 | A block gets braces, a probe with the span of its first child and one with that of its last, detached for a single child |
| Coverage.InstrumentWorker.VisitShowRule | crates/tinymist-debug/src/cov.rs:306-322 | The child with the span of the transform is wrapped |
| Coverage.InstrumentWorker.InstrumentShowSet | crates/tinymist-debug/src/cov.rs:430-435 | A set rule becomes a function with a probe |
| Coverage.InstrumentWorker.InstrumentShowTransform | crates/tinymist-debug/src/cov.rs:437-446 | A transform is evaluated once and applied behind a probe |
| Coverage.CoverageMap.CovPc | crates/tinymist-debug/src/cov.rs:211-232 | A call bumps exactly one counter, of the region kept aside for the file or else the registered one; the count stops at 255 |
| Coverage.CoverageMap.StaleIff | crates/tinymist-debug/src/cov.rs:176-232 | Exact condition over any registrations and calls: a call misses the registered region of its file iff that file is the one called last and was registered again after a call of it, with no other file called since |
| Coverage.CoverageMap.Insert | crates/tinymist-debug/src/cov.rs:176-189 | Registering starts all counters at zero; the map stays valid iff the file is not the one kept aside |
| Coverage.CoverageMap.Hit | crates/tinymist-debug/src/cov.rs:211-232 | In a valid map a call adds one to the counter of its probe and to no other |
| Coverage.CoverageMap.Execute | crates/tinymist-debug/src/cov.rs:211-232 | After any sequence of calls over any files every counter holds the number of calls of its probe, up to 255 |
| Coverage.InstrumentWorld.Instrument | crates/tinymist-debug/src/cov.rs:176-189 | Instrumenting a file gives its text, its entries and a zero counter for each |
| Coverage.InstrumentWorld.Source | crates/tinymist-debug/src/instrument.rs:45-54 | Each file is instrumented once, at the first request, so no registered region is ever replaced |
| Coverage.ProbesInRange | crates/tinymist-debug/src/cov.rs:176-232 | Every probe in the text of an instrumented file passes an index that has a counter and whose entry is its own |
| Framing.ReadIff | crates/sync-lsp/src/msg.rs:211-242 | The reader returns a message with a rest iff the input is some proper headers, a blank line, content of the last announced length that is UTF-8, and that rest |
| Framing.NoMessageIff | crates/sync-lsp/src/msg.rs:214-219 | No message and no error iff the input ends where a line should start, also after some headers |
| Framing.WrittenIsRead | crates/sync-lsp/src/msg.rs:211-251 | What was written is read back, with other headers around the length, and what follows is left alone |
| Framing.StreamRoundTrip | crates/sync-lsp/src/msg.rs:211-251 | A stream of written messages is read back in order, and what follows is left alone |
| Framing.ReadFrame | crates/sync-lsp/src/msg.rs:211-242 | Reading any frame |
| Framing.ReadIsFrame | crates/sync-lsp/src/msg.rs:211-242 | Everything read is a frame |
| Framing.ReadHeader | crates/sync-lsp/src/msg.rs:215-234 | A proper header line is taken and only a length changes the size |
| Framing.LengthHeaderIsProper | crates/sync-lsp/src/msg.rs:245-248 | The header written is proper and announces the length |
| Decimal.PrintValue | crates/sync-lsp/src/msg.rs:233-247 | A printed number is parsed as itself |
| Framing.WrittenText | crates/sync-lsp/src/msg.rs:245-251 | A written message, character by character |
| Framing.LengthNames | crates/sync-lsp/src/msg.rs:232 | The length is announced under its name in any case, and under no other |
| Framing.LengthIsRead | crates/sync-lsp/src/msg.rs:233 | A length is any decimal number of 64 bits, also with a plus sign |
| Utf8.ValidIff | crates/sync-lsp/src/msg.rs:240 | Content is accepted iff it encodes some sequence of Unicode scalar values |
| FramingIo.BufReader.ReadLine | crates/sync-lsp/src/msg.rs:216-219 | A line ends behind the next newline or at the end of the input |
| FramingIo.BufReader.ReadExact | crates/sync-lsp/src/msg.rs:236-239 | Exactly the requested bytes, or an error at the end of the input |
| FramingIo.ReadMsgText | crates/sync-lsp/src/msg.rs:211-242 | The header loop computes what the grammar reads, error by error, and leaves the rest |
| FramingIo.ReadRest | crates/sync-lsp/src/msg.rs:235-242 | The content after the blank line |
| FramingIo.WriteMsgText | crates/sync-lsp/src/msg.rs:245-251 | The writer appends one frame |
| Template.RoundTripIff | crates/tinymist-l10n/src/msg_parser.rs:4-60 | Round trip, exactly: parsing a print gives literals and values for all arguments iff no name starts with an opening brace and no placeholder is directly followed by a closing one |
| Template.PrintedIsParsed | crates/tinymist-l10n/src/msg_parser.rs:4-60 | The same, for given arguments |
| Template.UnreadableIsMisread | crates/tinymist-l10n/src/msg_parser.rs:14-19 | Otherwise some arguments tell the difference |
| Template.UnknownIsVerbatim | crates/tinymist-l10n/src/msg_parser.rs:29-34 | Unknown placeholders come out as they went in |
| Template.PlaceholderIsReplaced | crates/tinymist-l10n/src/msg_parser.rs:22-35 | A placeholder between texts without braces: a name with a value becomes exactly that value, any other is put back with its braces |
| Template.UnbalancedIsKept | crates/tinymist-l10n/src/msg_parser.rs:22-60 | A placeholder never closed and a lone closing brace come out as they went in |
| Template.ParseHole | crates/tinymist-l10n/src/msg_parser.rs:22-35 | A placeholder is replaced by its value, or put back |
| Template.ParseLiteral | crates/tinymist-l10n/src/msg_parser.rs:45-57 | Doubled braces of a literal are halved |
| Template.CollectName | crates/tinymist-l10n/src/msg_parser.rs:74-108 | The doubled closing braces of a name are halved |
| Template.CloseBeforePrint | crates/tinymist-l10n/src/msg_parser.rs:74-108 | In front of printed parts a closing brace always closes |
| Template.CollectUntilCloseBrace | crates/tinymist-l10n/src/msg_parser.rs:74-108 | The loop collects the name the grammar gives, or reports an open or empty placeholder |
| Template.ParseMessage | crates/tinymist-l10n/src/msg_parser.rs:4-60 | The loop computes what the grammar says, for every message |
| Locale.RoundTripIff | crates/tinymist-l10n/src/lib.rs:113-137 | Round trip, exactly: a stored map is loaded by key as it was iff its keys and texts have no newline, languages and values are trimmed, and no language has an equals sign or starts with a bracket or a hash sign |
| Locale.StoredIsLoaded | crates/tinymist-l10n/src/lib.rs:113-137 | Such a map comes back |
| Locale.LoadedCanBeStored | crates/tinymist-l10n/src/lib.rs:239-279 | Whatever is loaded by key is such a map |
| Locale.LoadingsAreTransposed | crates/tinymist-l10n/src/lib.rs:239-279 | For every text, loading by language gives the transpose of loading by key, and they fail or panic together |
| Locale.LoadFailsIff | crates/tinymist-l10n/src/lib.rs:239-279 | Loading fails exactly at the first bad line: it panics at a header that cannot be cut and reports a row without an equals sign |
| Locale.RowIsCut | crates/tinymist-l10n/src/lib.rs:252-262 | A row is cut into its language and value |
| Locale.LoadEntries | crates/tinymist-l10n/src/lib.rs:239-279 | Loading the sections of distinct keys adds them one by one |
| Locale.SplitText | crates/tinymist-l10n/src/lib.rs:240-241 | Splitting written lines gives them back |
| LocaleFiles.LoadText | crates/tinymist-l10n/src/lib.rs:239-279 | The loop over the lines computes what the reference says, for every text |
| LocaleFiles.UpdateTranslations | crates/tinymist-l10n/src/lib.rs:95-110 | Exactly the keys in use remain, each with its last English text and the other languages it had |
| LocaleFiles.UpdateStaysStorable | crates/tinymist-l10n/src/lib.rs:95-110 | An updated set can still be stored |
| Locale.ListsUnique | crates/tinymist-l10n/src/lib.rs:118-129 | A map has only one listing in order, so the file does not depend on the order of a hash map |
| LocaleFiles.LessIff | crates/tinymist-l10n/src/lib.rs:118-129 | The order of keys and languages is the lexicographic one |
| LocaleFiles.SerializeTranslations | crates/tinymist-l10n/src/lib.rs:113-137 | The file is that listing of the map: keys in order, English first, other languages in order |
| LocaleFiles.Sorted | crates/tinymist-l10n/src/lib.rs:118-119 | The elements of a set, ascending |

## Left out

- The async runtime, timers and thread pools: steps happen in any order, and a recheck may fire whenever it is queued.
- Sends fail in the source when the other side is gone; here every send succeeds, and the watcher's message that ends its loop is not modelled.
- Parsing of Typst, its syntax nodes and spans: trees are given, with the spans and children the accessors would return.
- File ids, caches, revisions and the notion of a changed VFS: a VFS is two maps, buffers over the watcher's view, and a fork copies both.
- Compilation itself, compile reasons, the interrupts that touch neither buffers nor watcher, and which dependencies a compilation has: dependency sets are arbitrary arguments.
- A memory event is numbered when it is received and a read when it is made, so that history can be stated; the source has no such counters.
- Invalidated paths and retained entries come in the order of a hash set or map; the model quantifies over the order.
- Other diagnostics of the linter: blocks of set and show rules without effect, fonts, unknown math identifiers, and the late pass over discarded values, of which only the record that decides whether it runs is kept. Expressions that only visit their parts in order are one constructor.
- The meaning of instrumented programs: only the text, its probes and their counters. The counters of a file that was never instrumented panic in the source; the model requires a registered region.
- Requests sent by the server carry parameters and their handlers run code; only ids and handlers are kept.
- JSON, the debug adapter protocol, hooks, logging and delays of requests.
- Memory limits of the framing reader: a huge announced length allocates a buffer of that size before reading.
- Reading and writing files on disk, the command line of the localization tool, the choice of a locale, and JSON strings in locale files.
- FramingIo.BufReader.ReadExact: what is consumed when the input ends too early is not stated, because the source leaves it unspecified.
