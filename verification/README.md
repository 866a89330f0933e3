# TimeShadeDB's logs and protocols

TimeShadeDB keeps the history of a game world: terrain tiles, their coarse pyramid, movers and overlays. Each part is a
set of append-only logs with an index in memory, and each makes a promise about what survives, what never changes and
what is seen twice. This project models those parts in Dafny and proves the promises.

| files | what they model |
|---|---|
| `JourneyRules`, `JourneyState`, `JourneyUndo`, `JourneyOwnership`, `JourneyRows`, `JourneyLeftover`, `Journeys` | who owns a mover's journey: adopt, late rows, quarantine, resync, forgetting, the undo log of a batch, and the records it leaves |
| `MoverRows`, `MoverClose`, `MoverState`, `MoverRefused`, `MoverCommit`, `MoverTrail`, `MoverReopen`, `MoverStore`, `MoverPayload`, `MoverLive`, `MoverPast`, `MoverRuns`, `MoverCrashes`, `MoverWal` | the mover store: open windows and their logs, eviction, commits, keyframes, reopening, the live payload of any instant, crashes during batches and commits, the frames of a log |
| `Pixels`, `Downsample`, `DeltaCodec`, `TileDelta`, `TileCodec` | averaging packed pixels, and the delta codecs of coarse and z0 tiles |
| `CoarseSeries`, `CoarseChoice`, `PyramidTiles`, `PyramidWorld`, `PyramidState`, `PyramidPass`, `PyramidAnswers`, `PyramidLatest`, `Pyramid`, `PyramidRuns`, `PyramidRebuild`, `PyramidReplay` | the pyramid: marks, due levels, builds, publication after a sync, restarts, live reads; a whole history built live and offline |
| `SeriesFile`, `SeriesPlans` | the two-file series log with its recovery, and read plans over it |
| `OverlayLog`, `OverlayRules`, `OverlayTiles`, `Overlays` | the interval log of overlays, its tile index and queries |
| `Sources`, `Delivery` | ingest: sources, horizon holds and commit targets; batches, the applier and duplicate marks |
| `DiskTail`, `IngestQueue` | the forwarder's durable queue |
| `JsonGrammar`, `JsonProductions`, `JsonValues`, `JsonParts`, `JsonScan`, `JsonLexer`, `JsonIter` | the two JSON scanners |
| `Timelines`, `PublishPlan`, `PublishReach`, `PublishState`, `Publish`, `PublishRuns` | what a day's timeline names, what a publishing round plans, records and resumes, and what its target serves |

Objects that change are classes whose methods are proved against functions of their state; what is promised is proved
about those functions and over whole runs. A file is a sequence of records with a synced prefix; a crash leaves that
prefix and possibly more. `dafny verify dfyconfig.toml` checks everything.

## What the code does not keep

Ten promises hold only on a condition. Each has its exact condition, for all inputs, and an example.

- *BuiltUpTo.* When a sync fails, a record stays unpublished; if the next update's level is not due, that update
  succeeds and BuiltUpTo moves past the record, and its later publication changes an answer that was called final
  (`BuiltUpToTooLate`, a run of an update and a restart). Answers below BuiltUpTo are final if and only if no tile was
  left with an unpublished record from before it. Taken are the tiles of levels that are due and, off schedule, those in
  doubt without a known record whose children are clear (`Pyramid.Update`, `PassFinal`, `StagedTaken`).
- *The newest content of a coarse tile.* While a tile's newest version waits for its sync the version before it is
  served although no change is pending (`ShadowedLatest`), and a pending tile over such a child shows that child's old
  content in its quadrant. The image computed for a pending tile is cached under its live sequence, which only a newer
  change moves, so it is served on when the child's version is published (`CachedTooLong`, a run). A pending tile serves
  its newest content if and only if each child's content that it is served from, halved, looks the same as the newest
  content known of it (`PendingLatest`); for a cached image, if and only if it was computed while that was so
  (`CachedLatest`); over any run (`ReadAfter`). Where no tile reached through pending ones is shadowed or cached the
  newest content is right (`LatestIsNewest`).
- *Rebuild equals live.* An offline rebuild gives the versions of a live server that committed and built every window
  (`docs/FORMAT.md:102-103`), whatever the z0 history, if and only if each level's interval is a multiple of the window
  or the window a multiple of it (`LiveAndRebuild`, `FitsExactly`; the defaults, minutes and quarters of an hour, are).
  Where some interval is neither, `UnfitHistory` gives a history after which they differ: the rebuild builds at each
  multiple of the interval, where no window may end, and the server at the end of every window that one falls in.
- *A refused mover batch.* With a sync after every batch, a batch whose sync fails is refused but stays in the logs, and
  an evicted window is read back with it; the store is in order if and only if none of the batch's windows was evicted
  (`SyncFailsOk`, `Append`).
- *A crash between a commit's file writes.* A window file whose unsynced rows the crash also lost stays behind without
  its rows, and closing the window again has nothing to replace it with (`LostRowLeavesFile`, a run). The store reopens
  in order if and only if every file of a window not closed has a row left in its log and every keyframe after the
  horizon a row before it (`Reopen`). When no accepted row is lost, as never with a sync per batch, it tells what it told
  before the commit or after it (`CrashDuringCommit`).
- *A torn index file.* The index of a series is never synced, and only the last entry recovery keeps is checked against
  its record. So a torn entry that passes for contiguous before true ones is trusted (`TornAmongTrue`, a run). Recovery
  loads the records exactly if every entry up to the last contiguous one that checks out is true (`Recover`), as when the
  file tore from its end (`TornIsTrue`).
- *Journey rollback.* Blank records of forgotten journeys are left, so there may be more than the bound
  (`RollbackCount`, `RollbackExceedsMax`). Such a record emits other rows than an untracked journey would only after a
  resync found the journey in the store while nothing had touched the record, and then by a sample that omits train
  details, a gone, a second resync, or an adopt followed by a late sample or an end (`WaysToTell`). For every run of
  later messages the condition is exact (`LeftoverTells`).
- *An overlay closed at time zero* is stored with the end that means "still open" (`PointQuery`,
  `ClosedAtZeroStaysOpen`).
- *Publishing after a failed sync.* The sync forgets that it failed, so a queue may be saved without objects whose
  records a crash then loses, and the resumed round records an index without them (`GapLosesData`, a run). A saved queue
  can be resumed if and only if what its final indexes need of what is held is on disk (`SavePlan`). The target has the
  objects all the same: all that every final index recorded names is there, whatever was lost (`Run`).
- *A final timeline never changes.* What it names does not (`FinalStays`). But an entry whose tile had its last version
  at the day's very start lists that version as a point once another version came: the answer called final changes if
  and only if that happens (`FinalEntry`, `FinalEntryMoves`).

One promise holds for another reason than the code gives. A comment on the planner (`internal/publish/plan.go:178-181`)
says that the first timeline read starts at a version the days before it name. A version that becomes effective at
midnight is not named by the day before, only by the day it starts; it is reached because the day before cannot be read
as final without the day after being read too (`DayAfter`, `PlannedReach`).

## Model

| member | source | states |
|---|---|---|
| JourneyUndo.RollbackIsExact | internal/movers/journeys.go:101-160 | After Mark, any run of operations and Rollback, every journey tracked at Mark has its record object and content back, resync sets and counters are those at Mark, and the only further journeys are those forgotten in between, with blank records |
| JourneyUndo.RollbackRecords | internal/movers/journeys.go:110-138 | From any logged state, undoing finds every record of the marked state under its own handle; every other record left is blank and of a journey the log says was forgotten |
| JourneyUndo.ReaddFinds | internal/movers/journeys.go:110-138 | Of several forgotten records of one journey it is the oldest, the one tracked at Mark, that comes back |
| JourneyUndo.ApplySince | internal/movers/journeys.go:141-160 | Every operation (sample, adopt, begin, resync, stop) keeps the undo log sufficient to go back to the marked state |
| JourneyUndo.RollbackSets | internal/movers/journeys.go:110-138 | Undoing gives back every resync set, present or absent, as it was at Mark |
| JourneyOwnership.BlankIsUntracked | internal/movers/journeys.go:240-257 | A blank record answers every sample and every adopt exactly as an untracked journey does |
| JourneyOwnership.BlankAfterResync | internal/movers/journeys.go:486-544 | The exception: after a resync ended it, a blank record answers the next sample differently from an untracked journey if and only if the sample omits train details the store's last row has, or is a gone whose journey the store still has |
| JourneyLeftover.LeftoverTells | internal/movers/journeys.go:110-138 | Over every run of later messages (samples and gones, adopts, stops, resyncs) a blank record left by a rollback emits the same rows for each message as an untracked journey if and only if the messages pass a condition on them alone, told by a few phases |
| JourneyLeftover.RowsTell | internal/movers/journeys.go:266-349 | The same from every phase the two can be apart in: after a resync ended the leftover, after adopts of it, and after samples of the new owner |
| JourneyLeftover.HiddenWithoutResync | internal/movers/journeys.go:486-544 | Without a resync that finds the journey in the store nothing tells the two apart |
| JourneyLeftover.WaysToTell | internal/movers/journeys.go:486-544 | After such a resync these tell, whatever the row found: a sample that omits details the row has, a gone whose journey the store still has, a second resync that finds the journey, and a late full sample before an adopt |
| JourneyLeftover.FullSampleEnds | internal/movers/journeys.go:266-349 | A sample with all details, before anything of these, ends every difference for good |
| JourneyLeftover.OperationPlays | internal/movers/journeys.go:240-438 | Every operation of the tracker does to a journey's record what these messages do, and a sample emits their rows |
| JourneyOwnership.RollbackCount | internal/movers/journeys.go:110-138 | How many journeys a rollback leaves: those of Mark and each one forgotten since, so the bound on tracked journeys holds after it exactly when that many fit |
| JourneyOwnership.RollbackExceedsMax | internal/movers/journeys.go:110-138 | A batch that adopts two journeys with room for one and is rolled back leaves more than the bound |
| JourneyOwnership.OwnerKept | internal/movers/journeys.go:266-349 | One operation changes a journey's owner only by a release of that owner or by forgetting; a new owner that is not nobody comes only from its own adopt |
| JourneyOwnership.OwnershipPasses | internal/movers/journeys.go:266-438 | Over whole runs an owner loses a journey only through its own gone, an adopt, a resync or stop that ends it, or forgetting |
| JourneyOwnership.EndOwnedRec | internal/movers/journeys.go:554-569 | A resync or stop ends exactly the journeys the source owns and the call matches, and touches no other record |
| JourneyOwnership.LateGonesPerAdopt | internal/movers/journeys.go:355-410 | Over every run the late gones emitted for a journey are at most the adopts it had, plus one already awaited at the start |
| JourneyOwnership.QuarantineHolds | internal/movers/journeys.go:266-349 | After its gone a source's samples of the journey from before the end of the handoff window are all dropped, over any run in which the journey stays tracked and unowned |
| JourneyOwnership.NextOwnerAfterGone | internal/movers/journeys.go:266-349 | The next owner's first row lands after the previous owner's gone if and only if its time is later than the gone or at most the slack before it |
| JourneyRows.StepRows | internal/movers/journeys.go:266-409 | The rows of any sample, each field told: the owner's is stored as it came, details omitted filled in, its time that or one past another source's gone of the last quarter second, after a gone on the surface it left; a previous owner's only before the adopt; a gone ends the journey where it is known |
| JourneyRows.StepCounts | internal/movers/journeys.go:266-409 | Every sample that stores nothing counts in exactly one of three counters, and those kept late, moved behind a gone or to another surface are counted as such |
| JourneyRows.SampledRows | internal/movers/journeys.go:266-349 | So it is in the tracker, and the journey's record then tells the last row's source, surface, description and time |
| JourneyRows.SampledCounts | internal/movers/journeys.go:266-349 | The counters go up by exactly what the sample counts as |
| JourneyRows.SampledNoticed | internal/movers/journeys.go:266-349 | Sent again in a resync are exactly the journeys whose samples were stored as the owner's, and a journey heard of is the most recent one |
| JourneyRows.EndsSeen | internal/movers/journeys.go:486-552 | A stop, and the end of a resync, leave no resync of the source running |
| JourneyRows.AddRecent | internal/movers/journeys.go:240-256 | A new journey is the most recent one, and at the bound exactly the least recently seen are forgotten, and counted |
| JourneyRows.AdoptMeans | internal/movers/journeys.go:411-437 | What a previous owner may still send after an adopt, by what was known of the journey |
| JourneyRows.StoppedRows | internal/movers/journeys.go:548-552 | The rows of a stop are the gones of the players the source owns |
| JourneyRows.ResyncedRows | internal/movers/journeys.go:486-544 | The rows of the end of a resync are the gones of what the source owns and did not send and of the forgotten journeys, and no others |
| JourneyRows.StoppedLeaves | internal/movers/journeys.go:548-552 | A stop leaves the players the source owned ended at its time and every other record as it was |
| JourneyRows.ResyncedLeaves | internal/movers/journeys.go:486-544 | The end of a resync leaves ended what the source owned and did not send, as found in the store some journeys the tracker did not know, and every other record as it was |
| Journeys.Journeys.RollbackBatch | internal/movers/journeys.go:110-138 | The in-place rollback (remove added, re-add forgotten, restore logged records and sets) gives exactly the specified state |
| Journeys.Journeys.MarkBatch | internal/movers/journeys.go:102-104 | Mark starts an empty undo log on the present state |
| Journeys.Journeys.CommitBatch | internal/movers/journeys.go:107-107 | Commit drops the log and nothing else |
| Journeys.Journeys.Get | internal/movers/journeys.go:232-238 | Looking a journey up moves it to the front of the recency list and changes nothing else |
| Journeys.Journeys.AddRecord | internal/movers/journeys.go:240-257 | Adding a blank record forgets, past the bound, exactly the least recently seen journeys and logs both |
| Journeys.Journeys.MoveOne | internal/movers/journeys.go:266-349 | One sample: the rows emitted are, field by field, the sample itself with its omitted details filled in and the gones that end its journey elsewhere, and the journey's record is that of the last row; counters, recency and the resync set are those of the rules |
| Journeys.Journeys.Move | internal/movers/journeys.go:266-349 | A move message's samples are filtered and completed one by one, in order, and out has exactly their rows |
| Journeys.Journeys.Adopt | internal/movers/journeys.go:416-438 | An adopt makes the source the owner and returns the previous one |
| Journeys.Journeys.Begin | internal/movers/journeys.go:449-452 | A resync starts with an empty set of resent journeys |
| Journeys.Journeys.EndOwnedBy | internal/movers/journeys.go:554-569 | The loop over records ends what the source owns and the call matches, one gone each, in order |
| Journeys.Journeys.EndResync | internal/movers/journeys.go:486-544 | The end of a resync emits exactly a gone, where it was, for each known journey of the source that it did not send again, and one for each journey live in the store that is unknown, not anybody else's, in its region or its own, older, and not in the batch |
| Journeys.Journeys.StopSource | internal/movers/journeys.go:548-552 | A stopped source emits exactly a gone for each player it owns |
| MoverRows.SortIs | internal/movers/rows.go:226-249 | Sorting by (journey, time) keeps, for each key, the last arrival the last: deduplicating a sorted window gives strictly ordered rows with exactly the last arrival of each (journey, time) |
| MoverRows.Dedupe | internal/movers/rows.go:240-249 | The in-place deduplication loop returns strictly ordered rows whose last arrivals are those of the input |
| MoverRows.NewestIs | internal/movers/open.go:285-305 | The fold that keeps a journey's newest row picks a row of the journey no other row beats by (time, arrival) |
| MoverRows.LatestIs | internal/movers/rows.go:240-249 | What is kept for a journey and time is the last arrival of it |
| MoverClose.IndexNewest | internal/movers/open.go:285-305 | The index of a window holds each journey's newest row by (time, arrival), and no other journey |
| MoverClose.FirstSamples | internal/movers/store.go:978-997 | Per journey the earliest time of a sample that is not a gone |
| MoverClose.FollowedInWindow | internal/movers/store.go:948-974 | The scan of a sorted window says exactly whether a later row of the journey follows a gone within the handoff window |
| MoverClose.MarkHandoffs | internal/movers/store.go:948-974 | Gones are flagged exactly as specified from the window's rows and the next window's first samples |
| MoverClose.Advance | internal/movers/store.go:1038-1047 | The live map moves on over a closed window: last row per journey, nothing after a gone |
| MoverClose.AdvancedLive | internal/movers/store.go:1038-1047 | Advancing the live state at one time by the deduplicated rows up to another gives the live state, as defined from all arrivals, at the other |
| MoverClose.LiveMeans | internal/movers/store.go:1038-1047 | A journey is live at an instant with the row no other row of it before that beats by (time, arrival), if that is no gone |
| MoverCommit.FirstHour | internal/movers/store.go:758-857 | The first keyframe of a commit is the least hour that is after the first row and after the horizon |
| MoverCommit.Capped | internal/movers/store.go:758-857 | A capped commit stops at a window boundary not past the target |
| MoverCommit.CappedWrites | internal/movers/store.go:758-857 | A commit that is capped stops after exactly 168 keyframes; no commit writes more |
| MoverCommit.ClosedMeans | internal/movers/store.go:758-857 | A closed window's file holds exactly the last arrival of each (journey, time), once, in order |
| MoverCommit.FlagMeans | internal/movers/store.go:948-974 | In a closed file a gone is flagged a handoff if and only if a sample of its journey follows within the handoff window, in the file or among the next window's arrivals |
| MoverCommit.ClosingKeyframe | internal/movers/store.go:1142-1172 | Writing the keyframe at an hour keeps the half-done commit right: all files before it are those of the plain definition |
| MoverCommit.ClosingWindow | internal/movers/store.go:1001-1034 | So does writing a window's file and moving the live state on |
| MoverCommit.InstallOk | internal/movers/store.go:859-923 | Once the files are right up to the new horizon, writing the meta file and installing memory keeps the whole store right |
| MoverState.WithRowOk | internal/movers/open.go:265-282 | Accepting one row keeps open windows, newest-row index and live answers those of all arrivals, resident or evicted |
| MoverState.SpanFromAll | internal/movers/store.go:405-413 | The time range stays exactly that of the accepted rows and of the meta file's range |
| MoverState.EvictOk | internal/movers/open.go:311-360 | Evicting a window changes its memory and nothing it stands for |
| MoverState.SyncFailsOk | internal/movers/open.go:109-164 | A batch refused because its sync failed leaves the store in order if and only if none of its windows was evicted: the log keeps the refused rows and an evicted window is read back from it |
| MoverStore.MoverStore.Check | internal/movers/store.go:441-573 | The accepted rows are, in order, those of exactly the samples that are valid, in range and not before the horizon, each field but the handoff flag as it came; late are exactly the valid ones before the horizon, invalid all others |
| MoverStore.MoverStore.Append | internal/movers/store.go:441-573 | An acknowledged batch adds exactly the rows of its samples that are valid, in range and not before the horizon, in order; a refused one changes nothing told, and leaves the store in order unless its sync failed with one of its windows evicted (if and only if). Every log, of an open window or not, then holds its arrivals and behind them at most the first rows of the one batch whose failure is sticky; rows that were synced stay so |
| MoverStore.MoverStore.FailWrites | internal/movers/open.go:109-164 | After a failed log write the logs hold what they held, or behind it the first rows of the batch, and then the failure is sticky; the store stays right |
| MoverStore.MoverStore.FailSync | internal/movers/open.go:109-164 | After a failed sync the logs hold what they held and the batch; the store is in order exactly when no window of the batch is evicted, and recoverable in any case |
| MoverReopen.WriteFailsAll | internal/movers/open.go:109-164 | A failed write leaves everything accepted, all that was synced, and in the logs nothing but that and rows of the batch |
| MoverCrashes.CrashDuringAppend | docs/FORMAT.md:278-283 | A batch appended with any failure and a crash then or in the middle of it: per window the rows read back are a prefix of the acknowledged arrivals followed by the batch's rows, or by those of an earlier batch whose failure was sticky, with everything that had been synced; with a sync per batch every acknowledged row is there and the store is in order |
| MoverCrashes.Crash | internal/movers/store.go:1248-1371 | The same of a crash at any time; in general the reopened store is in order if and only if no file lost its last row, told before the crash |
| MoverCrashes.Survive | internal/movers/open.go:109-164 | Runs of batches with any failure, commits that stop anywhere, evictions and crashes on a store with a sync per batch, event by event |
| MoverCrashes.NothingLost | docs/FORMAT.md:278-283 | Over any such run, per window and in order: every row there was and every one acknowledged since is among the arrivals, and every arrival is one of those or of a batch in doubt |
| MoverStore.MoverStore.TakeIn | internal/movers/open.go:265-305 | Logs and memory take a batch: the arrivals are the old ones and the batch's, in order |
| MoverStore.MoverStore.Evict | internal/movers/open.go:311-360 | Eviction drops resident rows, keeps the index and what the store tells |
| MoverStore.MoverStore.WindowRows | internal/movers/open.go:365-394 | A window's rows in arrival order, from memory or read back from its log, are the same rows |
| MoverStore.MoverStore.NextSamples | internal/movers/store.go:978-997 | The next window's first samples, from rows or from the evicted window's index, are the same |
| MoverStore.MoverStore.LastMeta | internal/movers/store.go:331-348 | A journey's newest row is the newest over all arrivals from the horizon on, else its live row |
| MoverStore.MoverStore.ClosedFile | internal/movers/store.go:758-857 | The file of a closed window: sorted, deduplicated, handoffs flagged against the next window |
| MoverStore.MoverStore.CloseAll | internal/movers/store.go:758-857 | The loop over open windows writes keyframes and windows in time order; it gets through if and only if enough files can be written and every evicted window is read back, and otherwise every window it could get to has its file and memory is untouched |
| MoverStore.MoverStore.Commit | internal/movers/store.go:758-923 | A commit succeeds if and only if as many files can be written as there are keyframes, windows with rows and the meta file to write, told by the rows, the time range and the horizon, and every evicted window is read back. It moves the horizon by at most its cap and closes exactly the windows before it; a failed one changes no memory and no file up to the old horizon, and every window it could get to has its file |
| MoverCommit.FilledStep | internal/movers/store.go:758-857 | How many windows with rows are left to write goes down by one with each that is closed |
| MoverStore.PaidNext | internal/movers/store.go:758-857 | How many files come before each window still to close is told in advance by rows and hours |
| MoverStore.MoverStore.SyncLogs | internal/movers/open.go:199-226 | A sync between batches, each log on its own: the store stays in order, a failure is sticky, and when none fails every accepted row is durable |
| MoverTrail.TrailNext | internal/movers/store.go:798-852 | Only the last window closed has rows for the trail |
| MoverTrail.TrailMoves | internal/movers/store.go:841-852 | After a commit the trail holds exactly the closed rows of the minute before the new horizon, sorted by time |
| MoverStore.MoverStore.RebuildTrail | internal/movers/store.go:1309-1363 | A reopened store has the same trail |
| MoverPayload.PartsPay | internal/movers/store.go:1612-1639 | Trail, recent open rows, older newest rows and live journeys together are the live payload, each row in one of them: every row of the last minute as it is told, and the last row of every older journey that is alive |
| MoverPayload.AllSeen | internal/movers/store.go:1566-1610 | However windows are taken, once all are, the newest rows are those of all open rows up to the instant |
| MoverLive.LivePayload | internal/movers/store.go:1612-1639 | The payload put together holds exactly its rows, each once |
| MoverLive.LiveFromMemory | internal/movers/store.go:1566-1610 | Resident windows row by row and evicted ones by their index give the payload; an evicted window with rows in the trail is read back instead |
| MoverLive.LiveExact | internal/movers/store.go:1641-1755 | With windows read back, rows in the trail and of trains kept whole, it is the same payload |
| MoverPast.LiveFromDisk | internal/movers/store.go:1798-1882 | At a closed instant the newest keyframe before the trail and the windows since give the same payload |
| MoverPast.Live | internal/movers/store.go:1545-1564 | At every instant the payload is the one the accepted rows and closed windows determine; it fails only when an evicted window cannot be read |
| MoverStore.MoverStore.RebuildLive | internal/movers/store.go:1248-1371 | The newest keyframe and the windows after it give the live state at the horizon |
| MoverStore.MoverStore.ReplayAll | internal/movers/open.go:473-563 | Replaying every log rebuilds the open windows with their rows in arrival order |
| MoverStore.MoverStore.Reopen | internal/movers/store.go:1248-1371 | Reopening from what a crash left of the logs keeps everything closed and rebuilds memory from the rows kept; the store is in order if and only if every file of a window not closed has a row kept in its log, and every keyframe after the horizon a row kept, or the meta file's first time, before it: told from the files before the call |
| MoverReopen.OrphansAre | internal/movers/store.go:1248-1371 | Which files are orphans after a reopening is told by the files, the meta file and what was kept of the logs before it |
| MoverRuns.ViewDetermined | internal/movers/store.go:366-393 | Closed windows, keyframes, live journeys and newest open rows are determined by the arrivals of each window, the horizon and the closing moments; the order between windows does not matter |
| MoverRuns.PayloadDetermined | internal/movers/store.go:1545-1564 | So is the live payload of every instant |
| MoverRuns.PayloadUnique | internal/movers/store.go:1612-1639 | Two ways of reading the same payload give the same rows, each once |
| MoverRuns.RunBoth | internal/movers/open.go:311-563 | Two stores that run the same operations, refused batches and failed commits included, but evict different windows, and are stopped and opened again at different times by crashes that lose no row, tell the same after every step, the live payload of every instant included, and each step did what its operation says |
| MoverRuns.RestartedView | internal/movers/store.go:1248-1371 | A store reopened without a loss has the same arrivals and time range, is in order and tells the same |
| MoverRuns.CrashDuringCommit | internal/movers/store.go:758-923 | A commit that fails anywhere or succeeds, and then a crash: the reopened store tells what it told before the commit, or after it once that took the horizon, live payload included, whenever the crash loses no accepted row, as with a sync per batch it never does; in general it is in order if and only if no file of the commit lost its last row |
| MoverRuns.SpanUnique | internal/movers/store.go:405-413 | The time range is determined by the arrivals and the meta file, so a restart finds the same one |
| MoverRuns.LostRowLeavesFile | internal/movers/store.go:1001-1034 | A run: a batch is accepted without a sync, a commit writes its window's file and fails at the meta file, and a crash loses the row. The reopened store has the file of a window without rows, is not in order, and when the window is closed again there is nothing to write over the file |
| MoverReopen.KeyframeIs | internal/movers/store.go:1142-1172 | A keyframe at an hour up to the horizon exists if and only if rows came before it, and holds the live state there |
| MoverReopen.WindowLive | internal/movers/store.go:1038-1047 | Reading one closed window back carries the live state on, also over windows without a file |
| MoverWal.WinLog.Encode | internal/movers/wal.go:156-208 | However a batch is cut into frames, decoding them behind the file gives its rows; only descriptions not numbered yet are defined, each with the next number |
| MoverWal.WinLog.Write | internal/movers/open.go:109-164 | One write per batch, on frames and on the rows they decode to: written, the log of rows has the batch behind it; after a failure it is what it was, or where the cut failed has the first rows of the batch behind what is counted and takes nothing more; the numbering in memory is the one before in either case |
| MoverWal.WinLog.Sync | internal/movers/open.go:199-226 | A sync makes all rows of the log durable |
| MoverWal.WinLog.Reopen | internal/movers/wal.go:61-149 | The rows of the frames that survive are a prefix of the log of rows with all synced ones, and numbering goes on without clashes |
| MoverWal.Renumber | internal/movers/open.go:425-467 | The numbers read back are a numbering, and the next one is past them all |
| MoverWal.DecodeGrows | internal/movers/wal.go:61-149 | Decoding more frames only adds rows behind those decoded before |
| Pixels.PackedIsAverage | internal/pyramid/downsample.go:8-29 | The packed-channel sum with its carries gives, for any four pixels, exactly the plain per-channel average |
| Pixels.MeanIsRounded | internal/pyramid/downsample.go:8-29 | A channel's average is the nearest whole value, the greater of two |
| Downsample.DownsampleInto | internal/pyramid/downsample.go:18-29 | The nested loops write the 2x2 average of the child into one quadrant and touch no other pixel |
| Downsample.BuildParent | internal/pyramid/downsample.go:34-44 | The parent image built in four quadrants is the plain average of its four children |
| Downsample.MissingIsUncharted | internal/pyramid/downsample.go:34-44 | A missing child and an uncharted one give the same parent |
| Downsample.ParentSame | internal/pyramid/downsample.go:34-44 | Two parents are the same picture if and only if each child, halved, shows the same in both |
| Downsample.UnchartedParent | internal/core/pixels.go:98-115 | Four uncharted children give an uncharted parent |
| DeltaCodec.UvarintBack | internal/terrain/codec.go:74-107 | Reading a variable-length number returns it and the bytes behind it |
| DeltaCodec.GapsBack | internal/terrain/codec.go:114-179 | Positions written as gaps come back, in order |
| DeltaCodec.BitmapBack | internal/terrain/codec.go:114-179 | Positions written as a bitmap come back, in order |
| DeltaCodec.PositionsBack | internal/terrain/codec.go:114-179 | Whichever of the three position forms is chosen, reading gives the positions back |
| DeltaCodec.DeltaBack | internal/terrain/codec.go:114-179 | Decoding an encoded delta gives its changes and consumes every byte |
| TileDelta.CoarseRoundTrip | internal/pyramid/codec.go:46-156 | For any two coarse images, applying the encoded difference to the first gives the second |
| TileDelta.ChunkRoundTrip | internal/terrain/codec.go:42-227 | For any two z0 images, applying the encoded difference to the first gives the second, through the palette it was made with or any later extension, with narrow or wide indices |
| TileDelta.PaletteColors | internal/terrain/palette.go:124-169 | Indices written under a palette read the same colours under any later extension of it |
| TileCodec.DiffBlock | internal/terrain/codec.go:42-71 | The scan of a block finds exactly the positions that differ, in order, with the new values |
| TileCodec.AppendDelta | internal/pyramid/codec.go:46-90 | The loop over blocks appends exactly the specified bytes and counts the pixels that differ |
| TileCodec.ApplyDelta | internal/pyramid/codec.go:93-156 | Writing decoded pixels in place, block by block, gives exactly decode-then-apply; it succeeds if and only if the bytes decode |
| TileCodec.ApplyInterleaved | internal/terrain/codec.go:191-227 | Decoding and painting block by block is the same as decoding everything and then painting |
| CoarseSeries.VersionAt | internal/pyramid/pyramid.go:589-604 | Binary search gives the number of records effective by a time |
| CoarseSeries.PublishedAt | internal/pyramid/pyramid.go:608-621 | The version told at a time counts published records only |
| CoarseSeries.BaseOf | internal/pyramid/pyramid.go:750-803 | The chain of a version starts at a snapshot, or there is nothing to read |
| CoarseSeries.Read | internal/pyramid/pyramid.go:750-803 | Reading version v replays at most MaxChain + 1 records and gives exactly the content appended as v |
| CoarseSeries.AppendSound | internal/pyramid/build.go:450-563 | The record chosen (snapshot or delta) makes the given image the next version's content, keeps every chain within the limit and every earlier content |
| CoarseChoice.AppendThrifty | internal/pyramid/build.go:450-563 | The choice keeps the deltas of every chain within the ratio of their snapshot, and takes a snapshot only when there is nothing to build on, the chain is full, half the pixels change or a delta would break the ratio |
| CoarseChoice.ChainIs | internal/pyramid/pyramid.go:376-403 | What is counted of a chain is the deltas behind the last snapshot, their bytes together, and the snapshot's |
| CoarseSeries.LoadState | internal/pyramid/pyramid.go:376-403 | The counters loaded from a series are those of its records |
| CoarseSeries.BooksKept | internal/pyramid/build.go:450-563 | Counters updated at each append are those a reload would compute |
| PyramidTiles.AverageOfKids | internal/core/pixels.go:98-115 | Averaging children that show their own averages, or are missing because they show nothing, is the recursive average of the base level |
| PyramidWorld.AverageIsWorld | internal/core/grid.go:121-134 | Pixel (r, c) of tile (x, y) of level k is the k-fold 2x2 average of the square of base pixels of the world that starts at column (512x + c) 2^k and row (512y + r) 2^k |
| PyramidTiles.AverageSame | internal/core/pixels.go:98-115 | The recursive average depends only on the base content inside the tile |
| PyramidTiles.BuildOk | internal/pyramid/build.go:423-563 | A build from right children, whatever its append's fate, keeps every version the average at its time; a successful one leaves the tile showing the average |
| PyramidTiles.BuildFrame | internal/pyramid/build.go:423-563 | A build appends only at the given time, keeps published counts, and clears the mark only on success |
| PyramidState.KidsAverage | internal/pyramid/build.go:332-348 | Children that are current read as the averages a build needs |
| PyramidState.CommitOk | internal/pyramid/build.go:239-267 | A base version effective after the horizon changes no average up to the horizon, and its tile is to be marked |
| PyramidState.ClearCurrent | internal/pyramid/build.go:239-267 | No dirty mark is lost: a built tile without a mark shows the average of the base content |
| PyramidReplay.DueSince | internal/pyramid/build.go:93-112 | An update is due to build a level exactly when the last multiple of its interval is after the last update, and the first one when it is at such a multiple |
| PyramidPass.DueDown | internal/pyramid/build.go:275-329 | When a level is due every finer level is: each interval divides the next |
| PyramidPass.LevelDone | internal/pyramid/build.go:275-329 | A due level is current once its marked tiles were built and published |
| PyramidPass.TakenOn | internal/pyramid/build.go:275-329 | Which tiles without a version a level that is not due takes up is told by their children, and later levels do not change it |
| PyramidAnswers.AnswersKept | internal/pyramid/pyramid.go:637-654 | Below a final time the version told and the content of every version up to it stay |
| PyramidAnswers.PassFinal | internal/pyramid/build.go:275-329 | After a successful pass, answers below the horizon are final if and only if every tile left with unpublished records was taken by the pass or holds none from before it |
| PyramidAnswers.StagedTaken | internal/pyramid/build.go:275-329 | Of the tiles with unpublished records a pass takes those of due levels, and off schedule exactly those in doubt without a known record whose children are clear once their level is done |
| PyramidAnswers.RestartOk | internal/pyramid/pyramid.go:264-293 | A restart after any crash keeps every published record and every tile in order |
| PyramidLatest.LatestIsNewest | internal/pyramid/pyramid.go:714-745 | Where no tile reached from it through pending ones is shadowed, and none of the pending ones cached, the latest content served for a tile is the average of the newest base content |
| PyramidLatest.KnownIsNewest | internal/pyramid/pyramid.go:714-745 | The same walk, taking at a shadowed tile the version its last build found right, gives the average of the newest base content for every tile |
| PyramidLatest.PendingLatest | internal/pyramid/pyramid.go:714-745 | A pending tile serves its newest content if and only if each child's content that it is served from, halved, looks the same as the newest content known of the child: what is read of it now, or when an image is cached under the tile's live sequence, what was read of it then |
| PyramidLatest.CachedLatest | internal/pyramid/pyramid.go:714-745 | An image cached when every change was marked serves the newest content if and only if it was computed while each child, halved, looked like the newest content known of it, as long as no change from before the tile's newest one came since |
| PyramidLatest.QuietSince | internal/pyramid/build.go:239-267 | None comes when the tile's newest change was not after the horizon: later versions are |
| PyramidLatest.CacheMarked | internal/pyramid/build.go:239-267 | A mark with a newer change gives the tile a new live sequence, under which nothing is cached; any other leaves sequence, change and cached image together |
| Pyramid.Pyramid.ReadLatest | internal/pyramid/pyramid.go:714-745 | The recursive read, caching on the way, serves what the walk gives, and caches what it computed under the present sequences |
| PyramidRuns.ReadAfter | internal/pyramid/pyramid.go:714-745 | After any run of commits, updates, failures, restarts, reads and evictions: when a read gives the newest content, for tiles that are pending, cached or not, shadowed, or neither |
| PyramidRuns.CachedTooLong | internal/pyramid/pyramid.go:714-745 | A run: a reader's image of a pending tile over a shadowed one is cached; an update publishes the shadowed tile, the tile above is not due and keeps its sequence. Nothing is shadowed any more, and the old image is still served |
| PyramidRuns.ShadowedState | internal/pyramid/build.go:372-407 | Commits, marks, two builds and two failed syncs lead to the state that run starts from |
| PyramidRuns.WhiteSpot | internal/pyramid/build.go:372-407 | A tile that turns from uncharted to white makes the two images different |
| PyramidLatest.ShadowedLatest | internal/pyramid/pyramid.go:714-745 | A tile whose newest version waits for its sync serves its newest content if and only if that version happens to look the same |
| Pyramid.Pyramid.TerrainCommit | internal/pyramid/build.go:239-267 | A committed base version changes nothing published |
| Pyramid.Pyramid.Propagate | internal/pyramid/build.go:239-267 | Marks every coarse ancestor of a changed base tile; a newer change gives it a new live sequence |
| Pyramid.Pyramid.BuildTile | internal/pyramid/build.go:423-563 | Builds one tile in place: what it appends is the average, at the horizon; it succeeds when nothing goes wrong |
| Pyramid.Pyramid.CommitLevel | internal/pyramid/build.go:372-407 | Each tile the level touched whose sync succeeds is published, each other stays as it was and is dirty if it has unpublished records; it succeeds if and only if every tile with unpublished records was synced |
| Pyramid.Pyramid.ChildrenCurrent | internal/pyramid/build.go:332-348 | Says yes exactly when all four children are built, published and unmarked |
| Pyramid.Pyramid.BuildLevel | internal/pyramid/build.go:275-329 | A level's loop leaves every tile it took current when it succeeds, and every tile in order when it does not; it succeeds when every build and sync does |
| Pyramid.Pyramid.Pass | internal/pyramid/build.go:275-329 | A pass brings every due level up to date and builds new tiles whose children are current; it succeeds when every build and sync does, and with nothing due it changes nothing |
| Pyramid.Pyramid.Update | internal/pyramid/build.go:63-114 | An update keeps every final answer; it succeeds when every build and sync does, and then every due level shows its averages, and answers below the new BuiltUpTo are final if and only if no tile was left with an older unpublished record, told by which tiles were taken; with nothing due it changes only BuiltUpTo |
| Pyramid.Pyramid.MarkAll | internal/pyramid/build.go:63-114 | After marking, every changed base tile's ancestors are marked or current |
| Pyramid.Pyramid.Restart | internal/pyramid/pyramid.go:264-293 | Reopening publishes what survived, keeps every final answer, and answers below the new BuiltUpTo are final |
| Pyramid.Pyramid.VersionAt | internal/pyramid/pyramid.go:637-654 | The version of a tile at a time counts its published records effective by then |
| Pyramid.Pyramid.ReadVersion | internal/pyramid/pyramid.go:657-673 | A published version's content is the recursive average of the base level at the time it became effective, and pixel by pixel that of the world square it covers |
| PyramidRuns.Run | internal/pyramid/pyramid.go:891-899 | Over any run of commits, updates, failed appends and syncs, reads, evictions and restarts, an answer below a final time is the same at every moment, and each step did what its operation says |
| PyramidRuns.BuiltUpToTooLate | internal/pyramid/pyramid.go:891-899 | A run from a state the builder comes into: a sync failed and the next update is not due. It succeeds and BuiltUpTo answers 13; a restart then publishes the record, and the version at 12 goes from 0 to 1 |
| PyramidRuns.FailedSyncOk | internal/pyramid/build.go:372-407 | Marking, a build and a failed sync lead to that state, which is in order |
| PyramidReplay.LiveAndRebuild | internal/pyramid/build.go:116-235 | A live server that commits and builds at every window's end and flushes at the last, and a rebuild of what it committed, when nothing fails: the same tiles with the same published versions, times and contents, if every level's interval fits the window, and in any case if and only if the two schedules give every tile the same times |
| PyramidReplay.FitsExactly | docs/FORMAT.md:94-103 | The two schedules agree on every base history of whole windows if and only if each interval is a multiple of the window or the window one of it |
| PyramidReplay.UnfitHistory | docs/FORMAT.md:94-103 | Where some interval is neither, a base history after whose flush a tile has other versions live than rebuilt: an area that turns from black to white |
| PyramidReplay.Differ | docs/FORMAT.md:94-103 | So has every tile of such a level that changes one window after a common multiple of both and then stays as it is for longer than an interval |
| PyramidReplay.FlushedSame | docs/FORMAT.md:94-103 | Where each interval fits, the live schedule and the plain one, a version at each multiple of the interval at which the content changed, end with the same times |
| PyramidReplay.DueAtEnd | docs/FORMAT.md:94-103 | With a build at every window's end a level that fits is due exactly at the multiples of its interval |
| PyramidReplay.LiveRun | internal/pyramid/build.go:44-114 | A live server from an empty store: after the last window and a flush each tile has the versions of the live schedule; the run succeeds when every build and sync does |
| PyramidReplay.Window | internal/pyramid/build.go:63-114 | One window, its commits and its update, adds to each tile the version its schedule tells: the first as soon as there is content, later ones when the level is due and the content changed |
| PyramidReplay.Rebuild | internal/pyramid/build.go:116-235 | Refuses a datastore with versions and leaves it alone; else after the passes it plans and the last one at the horizon each tile has the versions of the plain schedule with a flush; it does not fail when no build or sync does |
| PyramidReplay.PassTimes | internal/pyramid/build.go:161-197 | The passes planned are the times of first versions and, for every version and level, the first multiple of the interval at or after it, no others |
| PyramidReplay.PassesPlanned | internal/pyramid/build.go:161-197 | These are all the times at which the plain schedule can add a version |
| PyramidReplay.PassesBefore | internal/pyramid/build.go:210-223 | The passes below the horizon leave each tile with the versions of the plain schedule |
| PyramidRebuild.GapSame | internal/pyramid/build.go:161-197 | From one planned pass to the next the plain schedule adds nothing to any tile, though every instant between is a chance |
| PyramidRebuild.PassCatches | internal/pyramid/build.go:275-329 | A pass in which nothing fails adds to each tile, dirty or not, the version its content and schedule tell, and no other |
| PyramidRebuild.NewTaken | internal/pyramid/build.go:332-348 | A tile marked for the first time is built by the pass whatever the schedule: its children are new too and were built just before |
| PyramidTiles.BuildTook | internal/pyramid/build.go:423-563 | A successful build adds a version at its time exactly when the content differs from that of the newest one |
| SeriesFile.OkIsImage | internal/series/file.go:226-266 | Files of a running or closed store are a possible crash image of themselves |
| SeriesFile.IndexPasses | internal/series/file.go:187-203 | A true index entry passes every check of recovery, but for a first one from before time 0, which fails the time check |
| SeriesFile.Contiguous | internal/series/file.go:85-184 | The check from the front stops at the first entry that is not contiguous or goes back in time |
| SeriesFile.TruePass | internal/series/file.go:85-184 | The true entries at the front all pass it, but with a first record from before time 0 none does, and the scan finds the records again |
| SeriesFile.TornIsTrue | internal/series/file.go:110-126 | If the index tore from its end, true entries and then a hole, or a torn entry and a hole, whatever comes behind, only true entries are trusted |
| SeriesFile.TornAmongTrue | internal/series/file.go:119-126 | A run: three records are synced and a crash tears the second index entry but not the third; only the last is checked against its record, so the torn one is trusted and the second record has another start |
| SeriesFile.TrustedIndex | internal/series/file.go:119-126 | The loop from the index's end stops at the last entry whose record checks out |
| SeriesFile.ScanRecords | internal/series/file.go:85-184 | The scan behind the trusted index takes contiguous records in time order, as far as they check out; behind true entries it finds every synced record |
| SeriesFile.Recover | internal/series/file.go:85-184 | Whatever the index file holds after a crash: recovery yields a prefix of the appended records with every synced one, contiguous from 0, times in order and counts right, and repairs both files, if and only if every index entry up to the last contiguous one that checks out is true |
| SeriesFile.SeriesFile.Append | internal/series/file.go:226-266 | An append adds one record behind the others; a failed one leaves the file as it was |
| SeriesFile.SeriesFile.Sync | internal/series/file.go:275-288 | A sync makes every record durable and the index complete; when only writing the index fails the records are durable all the same |
| SeriesFile.SeriesFile.CrashAndRecover | internal/series/file.go:85-184 | After a crash the store is in order with a prefix of its records and every synced one if every trusted index entry is true, as when the index tore from its end; otherwise its entries are those of no prefix |
| SeriesFile.SeriesFile.Reopen | internal/series/file.go:51-82 | Recovering files that are in order loads the same records and changes no file |
| SeriesPlans.PlanVersion | internal/series/series.go:190-218 | A read plan is right for any cache: a keyframe of the version, a cached version to resume from, or the newest base, with the deltas behind it |
| SeriesPlans.ReadVersion | internal/terrain/read.go:104-163 | Whatever the cache holds and drops meanwhile, version v is read if and only if there are as many changes, and with honest keyframes and snapshots it is the first v deltas' payloads applied one after the other to the empty image |
| SeriesPlans.VersionAt | internal/series/series.go:143-150 | The version at a time is the number of deltas effective by then |
| SeriesPlans.EndAt | internal/series/file.go:353-355 | Binary search gives the number of records effective by a time |
| SeriesPlans.BaseAtOrBefore | internal/series/file.go:358-365 | The newest base at or before a record |
| SeriesPlans.Chain | internal/series/series.go:93-107 | The records from the newest base effective at a time on: the base taken whole and the deltas behind it applied give what all deltas effective by then make of the empty image |
| SeriesPlans.ReplayIsVersion | internal/series/series.go:190-218 | With faithful bases, replaying all records gives the image that replaying only the deltas gives |
| SeriesPlans.ReplayIsChanged | internal/terrain/read.go:104-163 | Replaying the first n records with honest bases is applying the deltas among them |
| SeriesPlans.VersionIsChanged | internal/terrain/read.go:104-163 | Version v exists if and only if there are v deltas, and is what they make |
| SeriesPlans.OnwardIs | internal/series/series.go:93-107 | From an honest base on, or from the start, the records make what all of them make |
| SeriesPlans.History | internal/series/series.go:222-234 | Exactly the versions that became effective in the range, in order, up to the bound |
| OverlayLog.PrefixGood | internal/overlays/store.go:208-306 | Any prefix of a good log is good: at most one interval is open for a key |
| OverlayLog.LocsAre | internal/overlays/store.go:316-432 | A tile's index entries are the places of exactly its records, in log order |
| OverlayLog.VersionTells | internal/overlays/store.go:607-620 | A tile's version never goes back as the log grows, and while it stays the same so do the tile's intervals |
| OverlayRules.Written | internal/overlays/store.go:316-432 | The records the event rules write always make a good log |
| OverlayRules.ValidIsProper | internal/overlays/store.go:316-432 | The events taken are those of a known kind with a name of 1 to 1024 characters and, unless they close, at a finite place in the grid's bounds with texts of at most 16 KiB |
| OverlayRules.TornIs | internal/overlays/store.go:316-432 | However a write was torn, the records left are the log of the events before, and at most one close in place of the event that was cut |
| OverlayRules.LogMeans | internal/overlays/store.go:316-432 | For events in order an object has, at every time, one interval with the content its newest event by then opened, or none |
| OverlayRules.InOrderIsNotLate | internal/overlays/store.go:316-432 | An object's events in time order are never late |
| OverlayRules.PointQuery | internal/overlays/store.go:468-514 | A point query finds an interval that does not hold then if and only if it was ended at time zero, which is stored as still open |
| OverlayRules.ClosedAtZeroStaysOpen | internal/overlays/store.go:468-514 | An object closed at time zero is found at later times |
| OverlayTiles.ReadIs | internal/overlays/store.go:527-595 | A tile's own records, read alone, never end an unknown interval and give exactly the log's intervals of the tile |
| OverlayTiles.Run | internal/overlays/store.go:527-595 | A run of adjacent index entries covers consecutive records of the log |
| OverlayTiles.ReadTile | internal/overlays/store.go:527-595 | Reading by runs gives the tile's intervals with their ends |
| Overlays.Replay | internal/overlays/store.go:208-306 | Replay keeps the longest good run of whole frames and rebuilds the same open map, ordinals and tile index that writing them kept |
| Overlays.Event1 | internal/overlays/store.go:316-432 | One event queues exactly the records of the rules and is answered accepted, late or invalid as they say |
| Overlays.QueueAll | internal/overlays/store.go:316-432 | A call's events queue exactly the records all events so far call for |
| Overlays.Datastore.Apply | internal/overlays/store.go:316-432 | A call appends its records in one write, index and open map follow; a failed write leaves queries on the old log, refuses everything after, and leaves only a prefix of what was meant on disk |
| Overlays.AnswerIs | internal/overlays/store.go:316-432 | An event is invalid if and only if it is not proper, late if and only if it is older than its key's interval that is still open, and else accepted |
| Overlays.AnswersTurn | internal/overlays/store.go:316-432 | Of many events each is answered in its turn, after those before it |
| Overlays.InsideIs | internal/core/grid.go:110-118 | A place is in the tile whose square of 512, counted from -256, holds it |
| Overlays.Datastore.Load | internal/overlays/store.go:527-595 | A tile comes out the same from the cache and from the log |
| Overlays.Datastore.Query | internal/overlays/store.go:468-514 | A query answers exactly for tiles in the grid, and finds exactly the intervals whose place lies in the tile's square, of the kinds asked for, that started before the range's end and had not ended by its start |
| Overlays.Datastore.Version | internal/overlays/store.go:607-620 | The version is the tile's record count |
| Overlays.OpenFile | internal/overlays/store.go:208-306 | Opening cuts a torn tail; damage before whole frames fails or, when salvaging, keeps the frames before it; what opens is the log of some events |
| Overlays.CrashKeeps | internal/overlays/store.go:208-306 | After a crash or failed write the file always opens with everything acknowledged; no version goes back and equal versions show the same |
| Overlays.EndedBy | internal/overlays/store.go:316-432 | Every end in the log is the time of an event of that key |
| Overlays.QueryMeans | internal/overlays/store.go:468-514 | For an object with events in order, none at time zero, a point query of a tile finds it if and only if its newest event by then opened it at a place in the tile's square, with that content |
| Delivery.SkippedIsTaken | internal/ingest/sources.go:211-216 | A line whose number and time its source's mark has reached has, with all lines before it, every message with a chunk, a journey operation or an overlay event in taken batches, for sources whose later envelopes have a higher number or a later time |
| Delivery.Merge | internal/ingest/sources.go:229-249 | Noting a batch's marks keeps every mark backed by taken messages, and forgets nothing known |
| Delivery.Ingest.Step | internal/ingest/ingest.go:1345-1373 | The applier's step in any interleaving keeps the pipeline's promise: a batch's marks count only once it and all before it are taken; after a failure batches are only drained |
| Delivery.Ingest.FinishLine | internal/ingest/ingest.go:831-847 | A line's mark is queued only with or behind its last message |
| Delivery.Ingest.BeginLine | internal/ingest/ingest.go:904-969 | A line is skipped if and only if its source's mark has its number and time or later ones, and then all its messages are taken |
| Delivery.Ingest.ApplyMsg | internal/ingest/ingest.go:1004-1056 | A message with a chunk, a journey operation or an overlay event joins the batch being queued, and its amounts are added, unless its line is skipped |
| Delivery.Ingest.Flush | internal/ingest/ingest.go:1287-1311 | Handing a batch over waits for room, keeps order and fails once an earlier batch failed |
| Delivery.Ingest.FillWindow | internal/ingest/ingest.go:368-435 | A window takes line starts and messages in order, from where the last one stopped, also within a line |
| Delivery.Ingest.ApplyWindow | internal/ingest/ingest.go:368-435 | A window's messages join the batch, which is handed over as soon as an amount of it reaches its limit: none has afterwards |
| Delivery.Ingest.CloseFull | internal/ingest/ingest.go:368-435 | A batch that fills up with the last message of a line takes the line's mark, and is handed over |
| Delivery.Ingest.ApplySegment | internal/ingest/ingest.go:368-435 | All lines of a segment are read to their ends, a window at a time |
| Delivery.Ingest.IngestBody | internal/ingest/ingest.go:264-294 | Every message of an accepted body with a chunk, a journey operation or an overlay event is in a taken batch and, for sources that never go back, their marks reach each numbered line of it from now on; a failed or broken-off body can be sent again |
| Sources.Sources.constructor | internal/ingest/sources.go:91-125 | Opening keeps every source heard from within a week with its times, and each not ended holds its maps from the start |
| Sources.Sources.HoldUnknown | internal/ingest/sources.go:136-154 | Exactly the maps no source on record feeds are held, at their newest data |
| Sources.Sources.Heard | internal/ingest/sources.go:173-181 | Hearing from a source takes its end back and counts, and changes no other source |
| Sources.Sources.Seen | internal/ingest/sources.go:188-205 | Data registers its map at its time if new and never moves it back; the source holds it from then on |
| Sources.Sources.Applied | internal/ingest/sources.go:229-249 | Each feed's time becomes the greater of its own and the batch's; nothing else changes |
| Sources.Sources.End | internal/ingest/sources.go:266-276 | An end read before newer envelopes changes nothing; any other releases the source's maps |
| Sources.Sources.Holds | internal/ingest/sources.go:282-307 | Every live feed's map is held no later than the feed's time; every hold is some live feed's or an unknown one still in force |
| Sources.Sources.Save | internal/ingest/sources.go:343-388 | Only sources silent for a week are forgotten; for holds of at most a week none of them still holds a map |
| Sources.CommitLoop.HoldUnknown | internal/ingest/sources.go:136-154 | Maps without a source wait at their newest data unless the horizon is past it |
| Sources.CommitLoop.Seen | internal/ingest/sources.go:188-205 | First data at a time the horizon is not past makes the feed safe, also when an unknown hold hands over while a commit runs: there is no gap |
| Sources.CommitLoop.End | internal/ingest/sources.go:266-276 | Ending a source releases its maps' unknown holds and nothing else: horizons, holds and what is safe, covered or waiting stay, with the same times |
| Sources.CommitLoop.ReadHolds | internal/api/loop.go:73-123 | A commit covers exactly the feeds whose source did not end and had data for the map within the hold when it reads the holds |
| Sources.CommitLoop.Target | internal/api/loop.go:80-86 | The target is the grace before now or before the map's hold, whichever is earlier |
| Sources.CommitLoop.CommitMap | internal/api/loop.go:73-123 | Moving a map's horizon to the commit's target leaves every safe feed that the commit covers safe |
| Sources.CommitLoop.EndCommit | internal/api/loop.go:73-123 | Saving the table keeps as safe exactly the safe feeds of sources heard from within a week |
| Sources.CommitLoop.NotLate | internal/api/loop.go:73-123 | The next data of a safe feed in order is the whole grace ahead of the horizon, in every interleaving |
| DiskTail.DiskTail.constructor | clusterio/spool.ts:31-46 | Loading takes the segment files in number order and counts their lines and bytes; the next number is one past the last, also when that is negative |
| DiskTail.DiskTail.Append | clusterio/spool.ts:57-76 | Lines go behind everything on disk. Past the bound whole oldest segments go, never the one written to, only while the rest with the last of them would be over the bound, and their lines are counted. The newest segment takes the lines until it has its 8 MiB, then a new one does |
| DiskTail.DiskTail.Trim | clusterio/spool.ts:79-89 | The k oldest segments go whole, the last one stays, the bound is met or one segment is left, and with the last one that went it was not met |
| DiskTail.DiskTail.Take | clusterio/spool.ts:100-114 | The oldest segment's lines leave the disk part and its file stays |
| DiskTail.DiskTail.Done | clusterio/spool.ts:117-120 | Only the taken segment's file goes |
| DiskTail.DiskTail.PutBack | clusterio/spool.ts:123-133 | Lines written back are before every other segment on disk |
| DiskTail.SameOrder | clusterio/spool.ts:31-46 | The order in which a directory's segments load is determined by their numbers |
| IngestQueue.IngestQueue.Push | clusterio/ingest.ts:128-150 | A pushed line is the last of the one sequence of in-flight, memory, disk and buffered lines; only a counted block of the oldest lines of memory or of the disk part may go, never one in flight or the line pushed, and only while the bound is passed |
| IngestQueue.IngestQueue.FlushDisk | clusterio/ingest.ts:153-172 | Writing the buffer leaves the queue's order as it is; lines go only from the front of the disk part, only past its bound, and are counted |
| IngestQueue.IngestQueue.Refill | clusterio/ingest.ts:175-192 | Taking a segment into memory leaves the queue as it is; when nothing is in memory then and no file was empty, nothing is queued |
| IngestQueue.IngestQueue.BatchSize | clusterio/ingest.ts:379-388 | A request carries at least one line, and else as many as bound and split allow |
| IngestQueue.IngestQueue.TakeBatch | clusterio/ingest.ts:319-350 | A request's lines are the first of the queue, as many as bound and split allow; none only when nothing is queued, unless a file was empty |
| IngestQueue.IngestQueue.Answer | clusterio/ingest.ts:351-367 | Acknowledged or refused lines leave the front and are counted; on a retry the queue is as before; nothing else leaves but counted drops past the bound. A refused request of several lines halves the next ones until one is acknowledged |
| IngestQueue.IngestQueue.Trim | clusterio/ingest.ts:255-272 | Without a disk part the oldest waiting lines are dropped, counted, never one in flight nor the last one, only while the bound is passed, and until it is met or one line waits |
| IngestQueue.IngestQueue.Close | clusterio/ingest.ts:238-253 | Everything queued is on disk for the next start, in order, behind at most some of the last lines that were sent or refused; without a disk part it stays in memory |
| IngestQueue.IngestQueue.LateAnswer | clusterio/ingest.ts:319-367 | An answer after the close still counts lines that are away; they stay on disk, to be sent again, unless they were the last of a taken segment, whose file goes. What came in is still what went out, was dropped, or is left on disk |
| IngestQueue.IngestQueue.LateAnswerInMemory | clusterio/ingest.ts:319-367 | Without a disk part a request that fails after the close is lost, and nothing else is |
| IngestQueue.StopAndStart | clusterio/ingest.ts:84-105 | A queue opened over the files of a closed one, whose last request may have been answered meanwhile, holds what that one had still to send, in the same order, behind some of the last lines it sent or had refused |
| IngestQueue.CrashLeaves | clusterio/spool.ts:1-9 | After a crash at any time the files hold the taken segment's lines, some of the last ones sent or refused in front, and the rest of the disk part |
| IngestQueue.ReloadedIs | clusterio/spool.ts:31-46 | Loading what a stopped queue left gives that same sequence |
| JsonGrammar.NumIs | internal/ingest/fastjson.go:112-151 | A number's text has no delimiter, quote or bracket in it |
| JsonProductions.StrIs | internal/ingest/fastjson.go:60-110 | A string ends exactly where its content up to there is char* of RFC 8259 section 7: unescaped characters and escapes |
| JsonProductions.NumIs | internal/ingest/fastjson.go:112-151 | A text is read to its end as a number if and only if it is [ minus ] int [ frac ] [ exp ] of section 6 |
| JsonProductions.ClassesAre | internal/ingest/fastjson.go:60-110 | Digits, hexadecimal digits and white space are the sets of characters listed there |
| JsonValues.ValueIs | internal/ingest/fastjson.go:154-215 | Before a delimiter or the end of the text, a value ends where the grammar says if and only if the text up to there is one by the productions of sections 2 to 7 of RFC 8259, within the nesting allowed |
| JsonValues.TextIs | internal/ingest/fastjson.go:154-215 | A whole text is read as one value if and only if the productions make it one, with white space around it |
| JsonParts.ArrayIs | internal/ingest/scan.go:109-142 | An array is exactly its elements, each a value, with commas between them and white space around them |
| JsonParts.ObjectIs | internal/ingest/scan.go:76-106 | An object is exactly its members, each a string, a colon and a value, with commas between them and white space around them |
| JsonLexer.Lexer.Str | internal/ingest/fastjson.go:66-107 | The string loop accepts exactly the grammar's strings; it is plain if and only if it has no escape and is ASCII or valid UTF-8 |
| JsonLexer.Lexer.Num | internal/ingest/fastjson.go:112-151 | The number reader accepts exactly the grammar's numbers and returns their text |
| JsonLexer.Lexer.Skip | internal/ingest/fastjson.go:163-215 | The recursive skip accepts exactly the values within its depth and stops at their ends |
| JsonLexer.Lexer.Members | internal/ingest/fastjson.go:163-215 | The members' loop accepts exactly a well-formed rest of an object or array |
| JsonScan.StrStopAgrees | internal/ingest/scan.go:26-36 | On a valid string the scanner that only skips escaped characters stops at the same quote |
| JsonScan.PassValue | internal/ingest/scan.go:39-72 | A valid value leaves the bracket count as it was, whatever quotes and brackets its strings hold |
| JsonScan.ScannersAgree | internal/ingest/scan.go:39-72 | On every value the validating lexer accepts, at any nesting bound, that a delimiter or the end follows, the bracket-counting scanner stops at the same index |
| JsonScan.NoDelimiter | internal/ingest/scan.go:39-72 | Without a delimiter behind it the two differ on a number |
| JsonIter.SkipString | internal/ingest/scan.go:26-36 | The string loop stops where specified |
| JsonIter.SkipValue | internal/ingest/scan.go:39-72 | The value loops, with their depth counter, stop where specified |
| JsonIter.ElementEnds | internal/ingest/scan.go:130-142 | At an element of a valid array the scanner finds the grammar's span and then the next element or the end |
| JsonIter.ArrayIter.Next | internal/ingest/scan.go:130-142 | The iterator yields exactly the element texts, in order |
| JsonIter.ArrayIter.Empty | internal/ingest/scan.go:159-165 | Empty says exactly whether an element is left |
| JsonIter.CountArray | internal/ingest/scan.go:146-156 | The count is the number of elements, or one past the limit |
| JsonIter.FindMember | internal/ingest/scan.go:76-106 | The value found is that of the last member whose name matches, none if there is none or the text is no object |
| PublishPlan.PlanTile | internal/publish/plan.go:236-268 | A tile's span adds exactly its full tiles, which are each coarse version and of z0 versions 0 and 1, the last and every multiple of the spacing, and at z0 each delta between consecutive versions |
| PublishPlan.FewDeltas | internal/publish/plan.go:229-268 | At z0 fewer deltas than the spacing lead to a version from one exported in full or from where the span starts |
| PublishPlan.DayIs | internal/api/terrain.go:215-275 | A day is answered unless the source fails to, is final exactly when no version can come before its end, and lists exactly the tiles whose first version came before that |
| PublishPlan.FinalIs | internal/publish/plan.go:166-190 | A timeline is planned as final exactly when the source answers for its level with a bound past the day's end, a day index exactly when the index says so |
| PublishPlan.DaysAre | internal/publish/plan.go:136-144 | A datastore's days are the UTC days from its first version's to its last one's, and today when that is later |
| PublishPlan.ReachAll | internal/publish/plan.go:231-268 | Every version of a planned span is exported in full or reached by consecutive exported deltas, if its first one is |
| PublishPlan.AddDay | internal/publish/plan.go:156-227 | Spans cover every version a day names and start where some day read starts |
| PublishPlan.PlanLevel | internal/publish/plan.go:156-227 | Each timeline of the level not held as final is read and planned, with all tile versions it names; spans start at the first day read |
| PublishPlan.PlanMovers | internal/publish/plan.go:300-340 | Each day index not held as final is read and planned with all its windows and keyframes |
| PublishPlan.Plan | internal/publish/plan.go:108-154 | Every index of the catalog that is not held is planned when the source has it, as final exactly when it is, with what it names; none that is held is planned, and phases fit the kinds. Icon files, the palette of each datastore with data, and the pages are in it |
| Timelines.NamesAre | internal/api/terrain.go:240-275 | A day's timeline names exactly the versions from the one at its start to the last one before its end |
| Timelines.DayBefore | internal/publish/plan.go:99-185 | Where a listed day of a z0 tile starts past version 1, an earlier listed day ended with that version |
| Timelines.DayAfter | internal/api/terrain.go:240-275 | A version that becomes effective at the very end of a day is not named on it; it starts the next day, which is listed |
| Timelines.FinalStays | internal/api/terrain.go:215-240 | Once new versions are effective from a day's end on at the earliest, what the day names never changes; nor does the version at its end when they are effective after it |
| Timelines.FinalEntry | internal/api/terrain.go:240-275 | A final entry itself changes if and only if the tile's last version became effective at the day's very start and another one came since |
| Timelines.FinalEntryMoves | internal/api/terrain.go:240-275 | Two versions, at the start of a day and later, for which it does |
| Timelines.UtcDays | internal/publish/plan.go:99-105 | The loop lists the days from the first to the last |
| PublishReach.PlannedReach | internal/publish/plan.go:156-268 | A round that reads a day plans whatever its versions need besides what served the days held: every coarse version as a full tile, also one after the last listed day but today; at z0, up to the version at the day's end, by induction over the days read, with the day after where a version comes at midnight |
| PublishReach.NamedServed | internal/api/terrain.go:240-275 | Objects that serve a day's versions serve every version its timeline names |
| PublishReach.NeedsServe | internal/publish/plan.go:231-268 | Of everything held or planned, the tiles and deltas of a timeline's versions and the chain below the first serve it as well as everything does |
| PublishReach.FilesAre | internal/publish/plan.go:300-340 | A day index names exactly its windows and keyframes |
| PublishReach.EndsAre | internal/api/terrain.go:215-275 | A timeline stands, of each tile with a version before the day's end, for the versions from the one at the day's start to the one at its end at z0, or of a coarse tile to the last one before it |
| PublishReach.NeedsAre | internal/publish/plan.go:229-268 | What a final index needs is what it names, and below a first version only the chain from the newest full tile |
| PublishReach.FinalEnds | internal/api/terrain.go:215-240 | What a final timeline serves is the same for every later state of the source, also when a coarse version becomes effective at the bound itself |
| PublishReach.FilesPlanned | internal/publish/plan.go:300-340 | Every window and keyframe a planned day index names is planned with it |
| PublishState.PrefixHolds | internal/publish/state.go:182-216 | Whatever part of the log a crash leaves holds each final index with everything it needs |
| PublishState.ReplayIsKept | internal/publish/state.go:112-143 | Replaying the log, the last record winning, finds immutable exactly the keys some record calls so |
| PublishState.State.Sync | internal/publish/state.go:207-216 | A sync makes records durable; after a failed one nothing is left to sync, so the next reports success without syncing, and nothing recorded is promised |
| PublishState.State.Note | internal/publish/state.go:182-198 | A record goes behind the log and into memory, when the log's writer takes it; the promise that each final index is held with what it needs stays when what this one needs is held |
| PublishState.State.SavePlan | internal/publish/state.go:219-232 | The saved queue can be resumed after any crash if and only if what its final indexes need of what is held is certainly on disk; what they need is a parameter, the objects they name |
| PublishState.State.Reopen | internal/publish/state.go:63-143 | After a stop or crash the state is the replay of what is left, compacted or not; the promise stays, and the queue stays resumable if it was |
| PublishState.State.Compact | internal/publish/state.go:154-164 | Rewriting the log with one line per key, in any order, keeps the state and every promise |
| PublishState.Planned | internal/publish/publisher.go:140-187 | What the queue leaves out is held: its data is the planned data that is not |
| Publish.Publisher.Store | internal/publish/publisher.go:307-370 | An immutable object that is not reported missing, refused or unreadable is held afterwards, and at the target; nothing else becomes held |
| Publish.Publisher.RunPhase | internal/publish/publisher.go:190-291 | A phase's workers, in any order and with any failures, keep every promise; without a failure all immutable items of the phase are held |
| Publish.Publisher.Run | internal/publish/publisher.go:190-291 | Final indexes are stored only when all data of the round is; a run without failures holds all its immutable items |
| Publish.Publisher.Round | internal/publish/publisher.go:140-187 | Over failures, refusals, resumed queues and lost records the target has what each final index recorded needs, and the state has it too if it did before; a round in which nothing failed holds every final index of the catalog |
| Publish.Publisher.Reopen | internal/publish/state.go:63-143 | A stop or crash between rounds keeps that, whatever it loses of the log |
| Publish.Publisher.RecordedServed | internal/publish/plan.go:178-185 | Every version a recorded final timeline names, and at z0 the one at its day's end, and every window and keyframe a recorded final day index names, is at the target; in what is recorded too, while the state keeps its promise |
| Publish.PlanServed | internal/publish/plan.go:156-268 | What a plan's final indexes need provides all they name, timelines from any base that serves the timelines held, day indexes with their windows and keyframes |
| PublishRuns.Run | internal/publish/publisher.go:140-187 | Over any rounds from a source that only grows, with any failures, and any crashes between them, all that every final index recorded names is at the target at every moment, for timelines of every level and day indexes, and each round or crash did what it says to records, target and what is planned |
| PublishRuns.GapLosesData | internal/publish/state.go:182-232 | A run: a tile's record is noted, its sync fails and the next one reports success, the queue saved leaves the tile out, a crash loses the record, and the resumed round records the index without it |

## Left out

- HTTP routing, streaming, proxying, tokens, request signing, the sidecar process, icons, the web viewer and flags: plumbing without deep state.
- Compression, hashing and checksums: zstd and gzip are the identity, sizes of compressed payloads are parameters, a checksum is a predicate that holds for what was written at that place, and content hashes do not collide.
- Concurrency below critical sections: locks are atomic steps; the ingest applier and the commit loop interleave with the reader in any order, publishing workers take items in any order.
- Rail bodies, the anchor's clock fit, rail geometry, and orientation and position rounding of mover rows: rows are compared without bodies.
- MoverRuns.RunBoth: does not compare two stores after a file operation failed on one side only, as reading back an evicted window can, after a failure that is sticky, or a store restarted after a crash that lost rows.
- MoverCrashes.Survive: a store that is not in order, after a sync that failed over an evicted window, is not followed through commits and evictions until it is opened again; it refuses every batch.
- MoverPast.Live: does not model bodies, the bounds on trail rows and live journeys, which drop the oldest, or damaged files; the order of its rows is left open; whether a journey is a train does not change.
- MoverStore.MoverStore.Commit: does not model dropping rows outside the time range, several surfaces in one call, or the day index files; each surface has its own files and the day index repeats what the window and keyframe files tell.
- MoverStore.MoverStore.Reopen: does not repair a damaged window file or migrate an older log format; a store that is not in order after it is not followed further.
- JourneyLeftover.OperationPlays: a journey that is forgotten leaves the comparison, since it is untracked then.
- Memory budgets, pressure, idle release, caches of encoded tiles, metrics and logging: which window is evicted and which image is dropped from a cache is arbitrary instead.
- Journey identifiers and row descriptions are opaque values; their byte encodings in the mover log are left out, their numbering and framing are not. A torn frame is one that did not survive.
- JourneyOwnership.QuarantineHolds: does not speak of a journey that was forgotten meanwhile, since forgetting ends the quarantine.
- Pyramid: lazy loading of datastores, the views readers take, live flags and tile listings.
- PyramidReplay.Rebuild: the builder is shown the z0 history up to each pass's time, as the marks and reads of the code are limited to it; it starts from memory as opening leaves it, and z0 versions are effective after time 0.
- PyramidReplay.LiveAndRebuild: compares runs in which every update succeeded; a window commits what becomes effective at its end, then updates once.
- Pyramid.Pyramid.ReadLatest: is one step; a build does not run between its reads.
- PyramidRuns.Run: does not promise finality for a time the pyramid does not call final; when it does is the condition above.
- TileCodec.ApplyDelta: does not model a gap of 2^63 or more in damaged data, which wraps around in the code and is refused here.
- SeriesFile.SeriesFile.Sync: a failed write of the index leaves no part of it behind.
- SeriesFile.SeriesFile.Append: does not model a failed write that is on disk nevertheless after the cut failed too.
- SeriesFile: the header's fields, opening and closing of files, and the sharing of one open file by name.
- The terrain store's own log and commit; only its documented contract is used: versions come in time order after the horizon.
- Overlays.Datastore.Query: does not state the order of the result, which the code sorts by kind, key and start.
- Overlays.Datastore.Apply: does not model several datastores in one call; each has its own log, and a call writes one after the other.
- Positions of overlays are exact numbers with a flag for those that are not finite.
- Delivery.Ingest.IngestBody: does not promise that a message is taken only once, because a batch that failed in one store is retried in all; it assumes that a forwarder sends in order and moves on only past accepted bodies, and that no two forwarders share a source.
- Delivery: messages are sizes and counts; decoding, the journey operations of a batch and the newest times it reports are modelled in Journeys and Sources.
- Sources.CommitLoop.CommitMap: does not model the stores' windows, only that a horizon moves forward and not past its target.
- IngestQueue.IngestQueue.Answer: does not model backoff or idle waiting.
- IngestQueue.IngestQueue.Push: does not tell characters from bytes; each line has one size.
- DiskTail: file operations do not fail; lines are not empty, and a segment's last line is whole. An empty line and a last line that a crash tore are counted differently when loaded than when taken.
- JsonScan.ScannersAgree: does not model bytes; texts are sequences of characters, those outside ASCII without structure, and valid UTF-8 is a parameter of the lexer.
- JsonIter.FindMember: does not model case folding and escapes in names; whether a name matches is a parameter. Decoding of numbers and of whole messages is left out.
- PublishPlan.Plan: does not say where overlay pages come from, nor the order within a phase; both are parameters or free.
- PublishRuns.Run: takes from the source that versions of a tile come in time order, that z0 versions lie in the catalog's span, and that new ones are effective after what it called final, coarse ones at that time at the earliest; what the coarse levels can break of that is the first promise above.
- PublishState.State.Note: a record fits the log writer's empty buffer.
- PublishPlan.DayOf: a timeline is missing only when its whole level is, and answers of one round are of one moment.
- Publish.Publisher.Store: does not model what is read and how it is encoded; outcomes of reads and puts are arbitrary.
- Binary index and header layouts (internal/series/format.go), palette files, and the overlay record encoding: plain layouts of fields.
