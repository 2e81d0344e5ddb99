# Verified model of the archiver's core

The program archives the media of X accounts in the background. Its guarantees come from SQLite tables changed in
transactions, a file tree kept in step with a table, hand-written locks, paging scanners and caches. This project
models that core in Dafny and proves what it promises, for all inputs, all runs and all interleavings.

`dafny verify dfyconfig.toml` checks everything.

| files | subject |
|---|---|
| `JobTables`, `JobStore` | the `jobs` and `failed_tweets` tables with their triggers, and every transaction on them |
| `ScheduleItems`, `Schedules`, `ScheduleStore` | archive schedules: stale snapshots, the claim by version number, the jobs of a claim |
| `RetryQueue` | the queue of failed tweets and its rounds |
| `Timeline`, `TimelineOrder`, `ArchiveRounds` | the incremental timeline scan, what it returns and in which order, and rounds of archiving with a persisted cursor |
| `Decimals`, `Runes`, `Filenames`, `Publish` | file names, and publishing a download while others publish beside it |
| `MediaStore`, `MediaDownload` | three-level de-duplication: record, media key, content hash |
| `EntityRename` | renaming an entity's directory with crashes and faults at every point |
| `KeyLocks` | the per-key token locks |
| `LibraryCache`, `LibraryPage`, `LibraryOwners` | generation-checked caches, windowed paging, attribution by path prefix |
| `RateLimiter`, `CookiePool` | request budgets, and choosing a client with bounded waiting |
| `CompressWriter` | the buffering response writer |
| `CookieSecrets` | showing secrets and restoring them from what comes back |
| `Options` | a value that may be missing |

A concurrent part is a state machine: `Allowed`/`Step` (or `StepOf`) give the atomic steps, `Inv` the invariant, and
the run lemmas hold in every reachable state. A part that changes state in the program is also a class whose methods
are tied to that state machine or to a specification function.

## Hypotheses

- Clocks never go backwards, and every clock reading and sleep may take arbitrarily longer than asked for. In
  `Schedules` the zero time is 0 and the clock is past it.
- `NoStarvation` starts between two rounds, with the clock strictly past the entry's last update.
- Each SQL transaction is one atomic step, and a deleted job row cascades to the failed tweets it reported.
- Row ids are never reused (AUTOINCREMENT).
- Post ids are numeric. For the refinement of the full scan the timeline is newest first, repeats allowed, except for
  one pinned post at the head of page 0. `ArchiveRounds` also takes the timelines of successful rounds to be complete,
  new posts to have larger ids than all posts seen before, and page 0 not to be just the cursor's pinned post while
  newer posts exist.
- Recorded files are not removed from outside, recorded hashes and media keys are not empty, and directories are not
  renamed during a download.
- Between two attempts at a rename the new name is the same and nobody else writes into the old directory; the
  entity's directory exists when the first attempt starts. Names contain no slash.
- While a client is being chosen nobody else changes the limiters or disables a client.
- Stored cookie rows hold some secret and no placeholder; `PlaceholderNeverStored` keeps it that way.
- Encoding a body and decoding it gives the body back.

## Where the code differs from its own documentation, or fails

- The comment at `internal/jobs/manager.go:1729-1732` says that the path rewrite after a missing source matches no
  record if the new directory does not exist either. It rewrites exactly the records under the old prefix
  (`MissingSourceRewrites`), so the comment is right if and only if there is no such record (`CommentRightIff`).
- If the process is killed between moving a directory and rewriting the paths, and the next attempt cannot examine the
  old directory, the old directory is created anew; from then on the records of the moved files name nothing, whatever
  is attempted later under the same name (`StatStrands`). The exact condition for recovery is in `RerunRestores`.
- `internal/storage/library_page.go:427-428` says that the paged version of user attribution means the same as the array
  version. They differ for an entity without a screen name that stands first (`VersionsDiffer`), and for letters outside
  ASCII, which only the array version lower-cases (`CaseDiffers`). The exact condition over the entity table is in
  `VersionsAgree`; `PrefixesAgree` says when the two prefix columns of a row are equal, and `PlainTablesAgree` gives
  the tables on which the versions always agree.
- Page 0 that holds only the pinned stop post ends the incremental scan (`PinnedStopHidesNewPosts`, with the exact
  condition in `IncrementalRefinesFull`).
- A page of the library listing that reaches beyond the cap can show a wrong entry (`LastPagePastTheCap`; with the
  program's own cap of 100000 and page size of 60 that is page 1667, `DefaultLastPage`). A page that ends by the cap is
  right (`PageInsideCap`). `PageWithinCapIff` says exactly when the others show their part of the listing cut at the
  cap, and `PageUncutIff` when they show it uncut.
- `internal/downloader/downloader.go:239-242` says that files which appear during a download are conflicts and not
  partials. A file that another publisher puts in the place of an incomplete one is taken for incomplete and deleted if
  its length differs from the expected one or no length is known (`NewerFileDeleted`), and between the check and the
  removal even a complete one goes (`CompleteFileDeleted`). In a run, the deleted file is such a newer one if and only
  if somebody else removed the base file before (`NewerDeletedIff`); before the call, others can bring this about if and
  only if the base file looks incomplete and is not another medium's (`NewerMayGoIff`).
- `internal/downloader/downloader.go:322-323` says that the rename replaces only the program's own placeholder. Another
  publisher that is replacing an incomplete file takes the placeholder for it, and the file it then publishes is
  overwritten (`PlaceholderTaken`). In a run this happens if and only if, without hard links and under a free name,
  others remove the placeholder and add a file of that name (`OverwrittenIff`); before the publication it can happen if
  and only if there are no hard links and the name is free (`MayOverwriteIff`).
- The cursor also passes posts that could not be parsed. If such a post parses later, incremental rounds no longer
  return it and its media are lost to them (`LateMediaLost`). `RoundReturnsIff` says exactly which posts a round returns,
  and what a post parses to in a round that returns it is handled (`LaterRoundCatchesUp`); full rounds return all.
- A call of `downloadMedia` that fails after it has saved its file leaves that file without a record
  (`FailureLeavesFile`). It is the only way: `StepClaims` shows that no other step leaves one.
- A generated cookie id can collide with a stored one, and a row is then lost on the round trip
  (`GeneratedIdMayCollide`, with the exact condition in `AllRowsRestoreIff`).
- A `Retry-After` whose product in nanoseconds does not fit 64 bits wraps around; 9223372037 seconds is the smallest
  such number and asks for no wait (`HugeRetryAfterWraps`). Some larger numbers happen to wrap to a wait of 15 minutes
  or more, which is then cut to 15 minutes as it should be; the exact condition is in `RetryAfterHonouredIff`.

## Model

| member | source | states |
|---|---|---|
| JobTables.StatusSetsPartition | internal/storage/status.go:17-38 | every status is in exactly one of the active, completed, failed and canceled sets; the terminal ones are exactly the non-active ones; interrupted ones are active |
| JobTables.InsertExact | internal/storage/counters.go:23-31 | after an inserted job row its trigger leaves the counters equal to a full recount |
| JobTables.UpdateExact | internal/storage/counters.go:32-45 | after a status change the counters equal a full recount, and the guarded values are the unguarded ones: MAX(0, ...) does not clip |
| JobTables.DeleteExact | internal/storage/counters.go:46-54 | after a deleted job row the counters equal a full recount, and no subtraction goes below zero |
| JobTables.InsertTweetExact | internal/storage/counters.go:55-58 | a new failed tweet keeps the counters exact |
| JobTables.DeleteTweetExact | internal/storage/counters.go:59-62 | a removed failed tweet keeps the counters exact and its counter was at least one |
| JobTables.PartitionSizes | internal/storage/status.go:17-38 | the number of jobs is the sum of the sizes of the four status groups, for every table |
| JobTables.TotalIsSum | internal/storage/counters.go:112-140 | while the counters are exact, total = active + completed + failed + canceled and none is negative |
| JobTables.StepTransitive | internal/storage/storage.go:1441-1466 | over any chain of transactions: rows keep kind, input and creation time, ids are never reused, and a terminal status is left only by the automatic-retry row |
| JobStore.Store.InsertRow | internal/storage/storage.go:1352-1366 | the new row is pending under the next id; every other row and all failed tweets are unchanged; the counters stay exact |
| JobStore.Store.DeleteJobRow | internal/storage/storage.go:2947-2953 | deleting a job removes exactly its row and the failed tweets it reported, each firing its trigger |
| JobStore.Store.SelectPending | internal/storage/storage.go:1412-1417 | selects as many pending jobs as the limit allows, none younger than one left out |
| JobStore.Store.ClaimPendingJobs | internal/storage/storage.go:1397-1432 | exactly the oldest pending jobs, up to the limit clamped to 1..64, become resolving; nothing else changes |
| JobStore.Store.UpdateJob | internal/storage/storage.go:1441-1466 | a save is applied if and only if the row is not terminal or keeps its status; otherwise nothing changes |
| JobStore.Store.CancelJob | internal/storage/storage.go:1468-1488 | exactly an active job becomes canceled |
| JobStore.Store.RetryJob | internal/storage/storage.go:1493-1528 | a new pending job for the target is created if and only if the old one is finished and no job for that target is active |
| JobStore.Store.RequeueInterruptedJobs | internal/storage/storage.go:1530-1554 | exactly the resolving and downloading jobs become pending |
| JobStore.Store.ReserveAutomaticRetryJob | internal/storage/storage.go:2896-2943 | refuses only while an automatic-retry job is active; otherwise one such row is pending afterwards, a finished one is reused, and no other row changes |
| JobStore.Store.PruneAutomaticRetryJobs | internal/storage/storage.go:2947-2961 | deletes exactly the finished automatic-retry rows that are old and have no download, with the failed tweets they reported |
| JobStore.Store.CreateFailedTweet | internal/storage/storage.go:2814-2827 | one row per entity and tweet: a repeated report refreshes it and keeps its retry count, a first report adds it |
| JobStore.Store.PruneFailedTweets | internal/storage/storage.go:3052-3073 | deletes exactly the failed tweets older than the cut-off, each firing its trigger |
| JobStore.Store.RecountDashboardCounters | internal/storage/counters.go:112-122 | afterwards the counters are exact whatever they were before |
| JobStore.Store.Replay | internal/storage/storage.go:1397-1555 | any transactions in any order keep the counters exact, never reuse an id and leave finished jobs finished |
| JobStore.MarkedIs | internal/storage/storage.go:1418-1432 | marking rows sets status and time of exactly these and never touches kind, input or creation time |
| JobStore.ClaimedOnce | internal/storage/storage.go:1397-1432 | a claimed job is not claimed again while it is resolving |
| JobStore.CascadeIs | internal/storage/storage.go:2947-2953 | deleting jobs deletes exactly the failed tweets reported by them |
| ScheduleItems.Prepare | internal/storage/storage.go:3075-3126 | accepts exactly lists of 1..200 good items with an interval of 5..43200 minutes, reports the first problem otherwise, and returns the trimmed items without repeated targets |
| ScheduleItems.KeptOncePerTarget | internal/storage/storage.go:3095-3115 | the prepared list names every given target, none twice, and no other |
| ScheduleItems.KeptInOrder | internal/storage/storage.go:3095-3115 | the prepared list holds each target at its first place and with its first spelling, trimmed, in the order given |
| ScheduleItems.KeptTwice | internal/storage/storage.go:3075-3126 | preparing a prepared list changes nothing |
| Schedules.InsertAllAt | internal/storage/storage.go:1578-1602 | inserting drafts creates one pending job per draft, with consecutive ids in order, changes no other job and keeps the counters exact |
| Schedules.StaysOver | internal/storage/storage.go:1730-1744 | a claimed job that is not active stays so through any later transactions |
| Schedules.StepKeeps | internal/storage/storage.go:1604-1836 | every step of workers, editors, the scheduler and run-now callers keeps the protocol invariant: equal version implies equal last jobs, and active claimed jobs belong to the last claim |
| Schedules.RunKeeps | internal/jobs/manager.go:243-265 | the protocol invariant holds in every reachable state, and time does not run backwards |
| Schedules.OneLiveBatch | internal/jobs/manager.go:317-363 | in every run, two active jobs created by one schedule come from the same claim, and that is the latest claim of the schedule |
| Schedules.DueClaimableIff | internal/storage/storage.go:1697-1728 | a due snapshot can be claimed if and only if since it was read its schedule was not claimed, deleted, rescheduled, switched off or given a new interval; edits of the target list do not matter |
| Schedules.SpentForGood | internal/storage/storage.go:1766-1791 | a spent snapshot never becomes claimable again, not even after re-enabling |
| Schedules.ClaimCreates | internal/storage/storage.go:1792-1836 | a claim that passes the version check never fails the list check, and creates exactly one pending job per de-duplicated item of the stored list, remembered as the last jobs |
| Schedules.DueAfterClaim | internal/storage/storage.go:1792-1836 | after a claim at a moment the scheduler finds the schedule due from one interval after it on and not before, while nobody touches the schedule |
| Schedules.ClaimsApart | internal/jobs/manager.go:317-363 | two scheduler claims of a schedule that nobody else touches lie at least its interval apart |
| Schedules.DueAfterCreate | internal/storage/storage.go:1604-1622 | a new schedule is due from one interval after its creation on, with the prepared list and no last jobs |
| Schedules.DueAfterUpdate | internal/storage/storage.go:1624-1676 | an edit starts a new interval exactly if it switches the schedule on or changes the interval of one that stays on; otherwise the due time stays; the new list is taken over and the last jobs stay |
| Schedules.DueAfterReschedule | internal/storage/storage.go:1717-1728 | a postponed schedule is due from the time it was put to |
| ScheduleStore.ScheduleTable.CreateArchiveSchedule | internal/storage/storage.go:1604-1622 | stores the prepared schedule with version 0, no last jobs and the next run one interval ahead, or nothing |
| ScheduleStore.ScheduleTable.UpdateArchiveSchedule | internal/storage/storage.go:1624-1676 | moves the next run only for an enabling or a new interval of an enabled schedule, and the version exactly when the next run moved |
| ScheduleStore.ScheduleTable.RescheduleArchiveSchedule | internal/storage/storage.go:1717-1728 | sets the next run and always raises the version |
| ScheduleStore.ScheduleTable.DeleteArchiveSchedule | internal/storage/storage.go:1712-1715 | removes exactly that schedule |
| ScheduleStore.ScheduleTable.HasActiveJobs | internal/storage/storage.go:1730-1745 | true if and only if one of the ids is an active job |
| ScheduleStore.ScheduleTable.InsertJobs | internal/storage/storage.go:1578-1602 | the multi-row insert equals inserting the drafts one after another through the job store |
| ScheduleStore.ScheduleTable.ClaimArchiveScheduleJobs | internal/storage/storage.go:1766-1836 | refuses without any change unless the version matches (and, for the scheduler, the schedule is enabled) and the list is valid; otherwise it performs the claim step of the protocol |
| RetryQueue.BackoffGrows | internal/storage/storage.go:2865-2882 | the cool-down grows with the retries, doubles until it is capped, and lies between 10 minutes and 24 hours |
| RetryQueue.MissedRound | internal/storage/storage.go:2963-2971 | a round that lists 200 entries but not an eligible entry lists only entries ahead of it |
| RetryQueue.NoStarvation | internal/jobs/manager.go:1540-1643 | with k entries not younger than an entry that was last updated before now, at most k / 200 complete rounds that could list it pass it by, whatever is reported, removed or aborted in between |
| RetryQueue.Queue.ListFailedTweetsForRetry | internal/storage/storage.go:2963-2971 | lists the oldest eligible entries in order of their last update, as many as the limit (1..500, otherwise 20) allows, none twice |
| RetryQueue.Queue.TouchFailedTweet | internal/storage/storage.go:2837-2860 | moves the entry to the back with one more retry and its cool-down; a missing entry is left missing |
| RetryQueue.CoolsDown | internal/storage/storage.go:2829-2860 | no unforced round lists an entry again before its cool-down after the last failure is over; the failure adds one retry and changes neither post nor reporting job |
| RetryQueue.ListableAgain | internal/storage/storage.go:2963-2971 | a forced round, and any round after the cool-down, may list it; a deleted entry never |
| RetryQueue.Queue.RetryFailedTweets | internal/jobs/manager.go:1540-1643 | a round leaves every entry it got to deleted or at the back, and every other entry untouched; it does nothing while another round holds the lock |
| Timeline.GetUserTimeline | internal/xclient/client.go:675-801 | the paging loop equals the specified scan, for every server and stop id |
| Timeline.ScanPage | internal/xclient/client.go:716-785 | one page equals folding its entries, with the second look at a stop found on the first page |
| Timeline.ScanIsRun | internal/xclient/client.go:675-801 | a scan is a run over the pages an unstopped scan would fetch, cut where the stop was reached |
| Timeline.StopIsSound | internal/xclient/client.go:803-832 | beyond the place where a scan stops, a newest-first timeline holds nothing newer than the stop id |
| Timeline.IncrementalRefinesFull | internal/xclient/client.go:675-832 | the incremental scan fetches a prefix of the pages of the full scan, and both return the same posts above the stop id in the same order if and only if page 0 is not the stop post alone (or nothing newer exists) |
| Timeline.PinnedStopHidesNewPosts | internal/xclient/client.go:781-785 | a pinned stop post alone on page 0 hides newer posts |
| Timeline.LaterPagesNewer | internal/xclient/client.go:807-832 | everything returned from page 1 onward is newer than the stop id |
| Timeline.FullReturnsAll | internal/xclient/client.go:675-801 | a full scan returns every listed post that has media |
| Timeline.IncrementalReturnsNewer | internal/xclient/client.go:675-832 | an incremental scan returns every listed post with media that is newer than the stop id |
| Timeline.ReturnedIff | internal/xclient/client.go:675-832 | an incremental scan returns a listed post with media if and only if it is newer than the stop and page 0 is not the stop alone, or it stands on page 0 before the stop |
| Timeline.LastSeenListed | internal/xclient/client.go:1658-1677 | the newest id a scan reports is one of the listed ids |
| TimelineOrder.FullScanExact | internal/xclient/client.go:675-801 | a full scan returns exactly the posts with media, each at its first entry and in the order of the timeline, and reports exactly the posts that cannot be parsed |
| TimelineOrder.ScanInOrder | internal/xclient/client.go:735-832 | every scan returns posts as in their first entries, in the order of the timeline |
| TimelineOrder.NoPostTwice | internal/xclient/client.go:745-749 | no scan returns a post twice, however often it is listed |
| TimelineOrder.LastSeenIsNewest | internal/xclient/client.go:735-801 | the newest id reported is not older than any entry fetched, returned or not |
| TimelineOrder.NothingNewerMissed | internal/xclient/client.go:675-832 | no entry of the whole timeline is newer than both the newest id reported and the stop, unless the first page is the stop alone |
| TimelineOrder.AllPagesRead | internal/xclient/client.go:675-734 | every page is read up to where the timeline ends (no cursor, a repeated one, three empty pages in a row, a thousand pages), and a failed request is not taken for the end |
| ArchiveRounds.Archiver.HandlePost | internal/jobs/manager.go:1430-1480 | every medium of a post ends up archived, queued or noted according to its verdict; the round fails exactly if one aborts |
| ArchiveRounds.Archiver.ArchiveTweets | internal/jobs/manager.go:1424-1493 | succeeds exactly if no medium aborts; then all media of all posts are handled and the cursor is the newest of the posts, the seen id and the old cursor; on failure the cursor stays |
| ArchiveRounds.Archiver.Round | internal/jobs/manager.go:1366-1408 | succeeds exactly if the scan does and no medium of a returned post aborts; then it has scanned from the cursor or from the start, handled everything returned, and moved the cursor as specified |
| ArchiveRounds.CursorMoves | internal/jobs/manager.go:1962-1979 | the cursor never decreases and is always an id that was listed |
| ArchiveRounds.NoPostLost | internal/jobs/manager.go:1366-1493 | over any sequence of rounds, failed or not, with the incremental switch flipped at will and posts parsing differently in each round: every post that had media in the first successful round that listed it has all that media handled |
| ArchiveRounds.CursorReaches | internal/jobs/manager.go:1424-1493 | after a successful round no listed post is newer than the cursor |
| ArchiveRounds.NothingNewTwice | internal/jobs/manager.go:1366-1408 | an incremental round over a timeline that was just seen returns nothing newer than the cursor and leaves it where it is |
| ArchiveRounds.RoundReturnsIff | internal/jobs/manager.go:1366-1408 | a successful round returns a listed post with media if and only if it scans in full, or the post is newer than the cursor and page 0 is not just the cursor's post, or it stands on page 0 before that |
| ArchiveRounds.LaterRoundCatchesUp | internal/jobs/manager.go:1366-1493 | what a post parses to in any later round that returns it is handled as well |
| ArchiveRounds.LateMediaLost | internal/jobs/manager.go:1384-1397 | a post that does not parse when it is listed first, and parses afterwards, is not handled by the incremental round that follows |
| ArchiveRounds.CursorNeverDecreases | internal/jobs/manager.go:1366-1408 | over any such sequence the cursor never decreases |
| Filenames.TruncateUTF8Bytes | internal/downloader/downloader.go:797-813 | the longest prefix of whole runes within the limit, trimmed |
| Filenames.ComposeFilename | internal/downloader/downloader.go:774-795 | the composed name as specified, for all stems, extensions, suffixes and limits |
| Filenames.ComposedFits | internal/downloader/downloader.go:774-795 | a composed name is never empty and never longer than the normalised limit, whatever its parts |
| Filenames.ShortNameKept | internal/downloader/downloader.go:774-795 | a name that fits is the trimmed stem, the suffix and the extension, complete |
| Filenames.LongNameCut | internal/downloader/downloader.go:774-813 | a longer name keeps suffix and extension while one byte is left for the stem, and as many whole runes of the stem as fit |
| Filenames.BlankStem | internal/downloader/downloader.go:774-780 | a blank stem gives the name media |
| Filenames.SplitName | internal/downloader/downloader.go:363-372 | stem and extension make up the name, and the extension starts with the last dot |
| Filenames.VariantName | internal/downloader/downloader.go:363-372 | a variant that fits is the name with the number in brackets before its extension |
| Decimals.DecimalValue | internal/downloader/downloader.go:370 | the digits of a number stand for it |
| Runes.TrimCuts | internal/downloader/downloader.go:774-776 | trimming cuts off white space at both ends and nothing else |
| Filenames.NumberReadBack | internal/downloader/downloader.go:363-372 | the number in brackets can be read back from the end of a name |
| Filenames.CandidatesDiffer | internal/downloader/downloader.go:363-372 | variants 1..10000 of a name are pairwise different and within the limit, unless the name ends in a closing bracket |
| Publish.Dir.ExistingFileState | internal/downloader/downloader.go:243-261 | absent, directory, complete (known length that matches) or partial |
| Publish.Dir.PublishFile | internal/downloader/downloader.go:308-339 | with hard links, or with a placeholder and a rename between which others may act: either the name was free and now holds the content and the temporary name is gone, or it was taken and nothing changed; the file of another publisher that is destroyed is exactly the one specified |
| Publish.OverwrittenIff | internal/downloader/downloader.go:322-337 | another publisher's file is destroyed if and only if, without hard links and under a free name, others remove the placeholder and put a file in its place |
| Publish.MayOverwriteIff | internal/downloader/downloader.go:322-337 | others can lose a file to a publication under a name if and only if there are no hard links and the name is free |
| Publish.PlaceholderTaken | internal/downloader/downloader.go:322-361 | another run of this very code deletes the placeholder as an incomplete file, and the complete file that it publishes then is overwritten, against the comment |
| Publish.Dir.RemoveIncompleteLocalTarget | internal/downloader/downloader.go:352-361 | a file that looks partial is removed, whatever others have put in its place since the look; a file that is already gone counts as removed; otherwise nothing is |
| Publish.Dir.PublishTempFile | internal/downloader/downloader.go:268-298 | terminates; the content goes to the base name if that is free at the first attempt, or cleared by it and free at the second, and otherwise to the first free variant; it fails only if something goes wrong in an attempt, and is skipped exactly if the first look finds the whole file; no file that others left alone changes except the base file, which is deleted exactly as specified, and a file of theirs is overwritten exactly if it took the place of the placeholder |
| Publish.Dir.DownloadWithOptions | internal/downloader/downloader.go:124-211 | a whole file at the base name that is not another medium's is taken and nothing changes; a broken transfer fails and leaves nothing; a transfer that is over fails only if something goes wrong in an attempt, gets the base name whenever that is free or cleared, and otherwise a variant; a file of another medium is neither taken nor changed; a base file is deleted exactly as specified, and it is another publisher's newer file if and only if somebody else removed the base file before |
| Publish.NewerDeletedIff | internal/downloader/downloader.go:283-294 | a deleted file is one that another publisher put there meanwhile if and only if somebody else removed the base file first; otherwise it is the file of the start |
| Publish.NewerMayGoIff | internal/downloader/downloader.go:124-156 | before the call: others can have a newer file of theirs deleted if and only if the base file looks incomplete and is not known to be another medium's |
| Publish.OthersKeepBase | internal/downloader/downloader.go:283-294 | while nobody else removes the base file, only the file judged at the start is ever deleted |
| Publish.QuietReplaces | internal/downloader/downloader.go:283-294 | left alone, a call deletes the incomplete base file of the start and has the base name free at its second attempt |
| Publish.FirstLookDecides | internal/downloader/downloader.go:150-168 | a file of the expected length is taken and one of another or an unknown length replaced, both only if it is not known to be another medium's; a folder is neither |
| Publish.DeletesPartialOnly | internal/downloader/downloader.go:352-361 | neither a folder nor a file of the expected length starts a deletion |
| Publish.NewerFileDeleted | internal/downloader/downloader.go:239-242 | a newer file of another publisher is deleted if its length differs from the expected one or none is known, against the comment |
| Publish.CompleteFileDeleted | internal/downloader/downloader.go:352-361 | between the check and the removal even a complete newer file is deleted |
| Publish.GivingUpMeansFull | internal/downloader/downloader.go:263-298 | giving up is only possible if at least 9999 names were taken, now or until others removed them |
| MediaStore.StepKeeps | internal/jobs/manager.go:801-1025 | every step of any number of concurrent calls keeps the library invariant |
| MediaStore.StepSpares | internal/jobs/manager.go:801-1025 | no step rewrites a record, or overwrites or deletes the file that a record names |
| MediaStore.SaveStepKeeps | internal/jobs/manager.go:843-890 | under the invariant the downloader never finds an own file at its base path: it always publishes under a free name |
| MediaStore.RunSpares | internal/jobs/manager.go:801-1025 | through every interleaving a record keeps its path and its file keeps its content |
| MediaStore.LibrarySound | internal/jobs/manager.go:801-1025 | in every reachable state each record names an existing file with the recorded hash, the path is a function of the media key, and equal hashes share one path |
| MediaStore.ReturnsRecorded | internal/jobs/manager.go:801-905 | a call that returns without an error has its medium recorded, at a file that is there with the recorded hash |
| MediaStore.SavedIsRecorded | internal/jobs/manager.go:870-905 | what was saved is recorded under the hash of its content |
| MediaStore.StepClaims | internal/jobs/manager.go:801-1025 | a step leaves a file without a record behind only if it is the failure of the call that saved it |
| MediaStore.FailureLeavesFile | internal/jobs/manager.go:868-905 | such a failure does leave the file behind |
| MediaStore.NothingLeftOver | internal/jobs/manager.go:801-1025 | without failures, when no call is under way, the files are exactly those that records name |
| MediaStore.NeverStuck | internal/jobs/manager.go:801-1025 | a call that is not fetching has a step to take unless another one holds its lock |
| MediaDownload.CopiesCover | internal/storage/storage.go:2394-2440 | merging records by path drops no path |
| MediaDownload.CopiesFirst | internal/storage/storage.go:2394-2440 | the merged rows are the first rows of their paths, in table order, and no others |
| MediaDownload.CopiesSuffice | internal/storage/storage.go:2382-2440 | if no merged row has its file on disk, no row has |
| MediaDownload.Downloads.FindPage | internal/storage/storage.go:2394-2440 | a page is the slice of the rows merged by path, first row of each path, in table order |
| MediaDownload.Downloads.FirstArchived | internal/jobs/manager.go:945-978 | turning the pages finds a usable copy if and only if any row has one |
| MediaDownload.Downloads.CreateDownload | internal/storage/storage.go:1838-1877 | one row per tweet and URL, updated in place; an empty hash does not erase a known one |
| MediaDownload.Downloads.DownloadMedia | internal/jobs/manager.go:801-1025 | one call ends in exactly one of: already recorded, recorded at the file of the same medium, failed, recorded at the file of the same content with its own file removed, or stored; nothing else changes and the invariant holds |
| EntityRename.FilesThereAndBack | internal/filestore/filestore.go:92-127 | moving a directory back restores the tree |
| EntityRename.Entity.Rename | internal/filestore/filestore.go:92-127 | success, source missing or target taken, and in the last two cases nothing changes |
| EntityRename.Entity.RewriteDownloadPathPrefix | internal/storage/storage.go:2194-2216 | rewrites exactly the records under the old prefix, or none on failure |
| EntityRename.Entity.RenameEntityDir | internal/jobs/manager.go:1724-1749 | rename, rewrite and rollback as specified at every fault point |
| EntityRename.Entity.EnsureUserEntity | internal/jobs/manager.go:1690-1717 | one attempt, with its fault, as specified; it reports success exactly if no fault stops it, and then the stored name is the new or the old one and its directory is there |
| EntityRename.AttemptPhase | internal/jobs/manager.go:1690-1749 | all states that faulty attempts can leave behind |
| EntityRename.RerunRestores | internal/jobs/manager.go:1690-1749 | after any faulty attempts a clean one with the same name makes every record of an existing file name that file again, under the stored name, if and only if the old and the new directory do not both exist by then |
| EntityRename.StrandedOnlyByStat | internal/filestore/filestore.go:93-99 | without an unreadable old directory the clean attempt always restores |
| EntityRename.StatStrands | internal/jobs/manager.go:1741-1743 | an old directory that cannot be examined after it was moved is created anew, and its records then name nothing after any later attempts under the same name: no attempt changes anything any more |
| EntityRename.MissingSourceRewrites | internal/jobs/manager.go:1728-1740 | with a missing source the rewrite changes exactly the records under the old prefix, whether or not the new directory exists |
| EntityRename.FirstEntity | internal/jobs/manager.go:1690-1717 | for a user seen for the first time, after any failed attempts, a clean one has stored the name and made its directory, and files and records are as they were |
| EntityRename.FirstReportedIff | internal/jobs/manager.go:1690-1717 | for a new user an attempt reports success if and only if the name is stored and its directory is there afterwards |
| EntityRename.RollbackRestores | internal/jobs/manager.go:1741-1748 | a rolled back rewrite, a failed move and a taken target leave everything as it was |
| EntityRename.OneAttemptKeepsRecords | internal/jobs/manager.go:1724-1749 | after one attempt a record of an existing file still names it, unless the attempt was stopped between the move and the rewrite, or could not roll back, and had moved that file |
| EntityRename.CommentRightIff | internal/jobs/manager.go:1728-1732 | that the rewrite matches no record is right if and only if no record lies under the old prefix |
| KeyLocks.MutualExclusion | internal/jobs/manager.go:1042-1094 | in every reachable state at most one goroutine holds a key, across evictions and re-creations |
| KeyLocks.NoStrandedWaiter | internal/jobs/manager.go:1050-1094 | nobody waits on an evicted channel while another holds the key, and a waiter without a holder finds the token |
| KeyLocks.HandsOver | internal/jobs/manager.go:1075-1084 | when a holder releases, whoever waits for the key can take it at once and then holds it |
| KeyLocks.OthersStay | internal/jobs/manager.go:1042-1094 | a step of one goroutine moves no other |
| KeyLocks.TableMatchesGoroutines | internal/jobs/manager.go:1042-1094 | a table entry exists exactly while goroutines are counted on the key, its count is their number, and the channel of a held key is empty, so the hand-over send never blocks |
| KeyLocks.RunKeepsInv | internal/jobs/manager.go:1042-1094 | the lock invariant holds in every reachable state |
| KeyLocks.LockTable.Enter | internal/jobs/manager.go:1050-1066 | registering under the mutex is the protocol step |
| KeyLocks.LockTable.TryTake | internal/jobs/manager.go:1495-1523 | taking the token succeeds exactly if it is in the channel |
| KeyLocks.LockTable.Release | internal/jobs/manager.go:1075-1084 | releasing evicts the last user's entry or hands the token over |
| KeyLocks.LockTable.Abort | internal/jobs/manager.go:1087-1094 | giving up evicts the entry if nobody is left |
| LibraryCache.StoreKeepsInv | internal/storage/storage.go:2074-2088 | storing a result under a generation check never caches content older than the generation's commits |
| LibraryCache.RunKeepsInv | internal/storage/storage.go:1901-1980 | the cache invariant holds in every reachable state of readers and writers |
| LibraryCache.NoStaleRead | internal/storage/storage.go:2089-2098 | a read that starts after a writer's invalidate returned never yields content older than that writer's commit, for both caches and every interleaving |
| LibraryCache.FillServes | internal/storage/storage.go:2074-2088 | a result that no invalidate overtook is what the next reads get, from both caches; an overtaken one is not cached in the array |
| LibraryCache.QuerySeesCommits | internal/storage/storage.go:1901-1980 | a read of its own sees all commits made so far |
| LibraryCache.FloorStays | internal/storage/storage.go:1901-1980 | what a read must not fall behind is fixed when it starts |
| LibraryCache.Cache.BumpGeneration | internal/storage/storage.go:2089-2092 | the atomic increment outside the mutex is the protocol step |
| LibraryCache.Cache.ClearArray | internal/storage/storage.go:2089-2098 | clearing under the mutex is the protocol step |
| LibraryCache.Cache.FillArray | internal/storage/storage.go:2074-2088 | fills only under the current generation |
| LibraryCache.Cache.Peek | internal/storage/library_page.go:571-579 | a hit has the generation asked for and is not older than the read requires |
| LibraryPage.MergeLibraryEntries | internal/storage/library_page.go:480-518 | the loop with its two indices and positions map equals the specified merge |
| LibraryPage.AddEntry | internal/storage/library_page.go:482-499 | adds a new key, or replaces an orphan of the same key by the record, and keeps the positions map exact |
| LibraryPage.BoundedMerge | internal/storage/library_page.go:480-518 | stopping after a number of entries gives that prefix of the full merge |
| LibraryPage.WindowedMerge | internal/storage/library_page.go:126-178 | merging only the first k database entries with all orphans gives exactly the first k keys of the unbounded merge, even when the sources overlap |
| LibraryPage.DisjointMerge | internal/storage/library_page.go:480-518 | for disjoint sources the merge is sorted, complete and of length total |
| LibraryPage.ListPage | internal/storage/library_page.go:126-178 | the paging code equals the specified page |
| LibraryPage.RecordsStand | internal/storage/library_page.go:482-499 | under a key that both sources hold stands the record; an orphan stands only for a file without one |
| LibraryPage.PageCountExact | internal/storage/library_page.go:156-163 | there are just as many pages as it takes to hold what is served, and one for nothing |
| LibraryPage.PageIsSlice | internal/storage/library_page.go:126-178 | every page, the last one included, agrees with its slice of the full listing as far as the cap reaches |
| LibraryPage.PageInsideCap | internal/storage/library_page.go:126-178 | a page that ends by the cap, and every page of a database within the cap, is exactly its slice of the full listing |
| LibraryPage.PageWithinCapIff | internal/storage/library_page.go:126-178 | a page shows exactly its slice of the listing cut at the cap if and only if it ends by the cap or the database window together with the orphans holds no more distinct keys than the cap |
| LibraryPage.PageUncutIff | internal/storage/library_page.go:126-178 | a page past the cap is exactly its uncut slice of the full listing if and only if the records up to the cap and the orphans newer than the first record left out fill it |
| LibraryPage.PagePastTheEnd | internal/storage/library_page.go:160-168 | a page number past the end shows the last page, entry for entry, although its database window is larger |
| LibraryPage.FullListsAll | internal/storage/library_page.go:480-518 | the unbounded merge lists the keys of both sources, each exactly once |
| LibraryPage.PagesListEveryKeyOnce | internal/storage/library_page.go:106-178 | consecutive pages list every key of both sources exactly once, in merge order, as far as the cap reaches |
| LibraryPage.LastPagePastTheCap | internal/storage/library_page.go:130-178 | for every database beyond the cap and every older orphan: a last page that reaches beyond the cap shows the newest records up to the cap and then the orphan, which stands behind all records in the full listing |
| LibraryPage.DefaultLastPage | internal/storage/library_page.go:20-23 | with the cap of 100000 and the default page size of 60, page 1667 ends with an orphan older than every record, in the place of the 100001st record |
| LibraryOwners.Walk | internal/storage/library_page.go:429-444 | the slash walk finds the smallest index stored under any directory prefix of the path |
| LibraryOwners.WalkFindsFirst | internal/storage/library_page.go:429-444 | with an index of first positions that is the lowest-index entity whose prefix is a prefix of the path |
| LibraryOwners.BuildSnapshot | internal/storage/library_page.go:611-625 | the index keeps the first of equal prefixes and gives every path the same owner as the plain list |
| LibraryOwners.SnapshotOwner | internal/storage/library_page.go:429-444 | the snapshot lookup equals the linear scan over the entities with a screen name, from the stored columns on |
| LibraryOwners.ArrayOwner | internal/storage/storage.go:2027-2072 | the array version equals the linear scan over all entities, from the stored columns on and for any lower-case table |
| LibraryOwners.VersionsAgree | internal/storage/library_page.go:427-444 | the versions show the same screen and user name if and only if the lowest row containing the file by the Unicode normalisation and the lowest named row containing it by the ASCII normalisation carry the same names, or neither exists, or only the first exists and names nobody |
| LibraryOwners.PlainTablesAgree | internal/storage/library_page.go:427-444 | if all entities have a screen name, plain directory columns and only letters that both versions lower-case alike, both show the same user for every path of such letters |
| LibraryOwners.VersionsDiffer | internal/storage/storage.go:2025-2072 | an entity without a screen name, listed first, hides a named one of the same directory in the array version only, for every plain directory and every file in it |
| LibraryOwners.CaseDiffers | internal/storage/library_page.go:520-536 | a file under a directory that differs from the entity's in the case of an accented letter has its owner in the array version and nobody in the paged one |
| LibraryOwners.PrefixesAgree | internal/storage/library_page.go:520-550 | the two prefix columns of a row are equal if and only if parent and name are not empty, have no slash at the ends that the snapshot trims, and hold no letter that only one version lower-cases |
| RateLimiter.RetryAfter | internal/xclient/ratelimit.go:180-197 | never more than 15 minutes; exact for up to 900 seconds, capped for up to 9223372036; larger numbers are the subject of RetryAfterHonouredIff |
| RateLimiter.RetryAfterHonouredIff | internal/xclient/ratelimit.go:180-197 | a number of seconds is honoured up to the cap if and only if its product in nanoseconds fits 64 bits or wraps around to at least the cap |
| RateLimiter.HugeRetryAfterWraps | internal/xclient/ratelimit.go:185-190 | at 9223372037 seconds, the smallest number beyond, the 64-bit product is negative and the header asks for no wait |
| RateLimiter.RefundUndoes | internal/xclient/ratelimit.go:159-170 | a refund undoes a deduction if and only if the server had not granted more than its limit |
| RateLimiter.Limiter.Prune | internal/xclient/ratelimit.go:31-45 | forgets exactly the budgets reset more than five minutes ago, when five minutes have passed since the last time, and changes no later answer |
| RateLimiter.Limiter.WouldBlock | internal/xclient/ratelimit.go:199-208 | true if and only if the budget is used up and not reset at that time |
| RateLimiter.Limiter.Before | internal/xclient/ratelimit.go:49-82 | goes ahead exactly if the path is not blocked any more, and then takes one request from a budget that is in use; a path that is not blocked never waits; at most three waits of at most 15 minutes 5 seconds each, once if nobody interferes; keeps the reset bound |
| RateLimiter.Limiter.After | internal/xclient/ratelimit.go:84-124 | takes the headers over with the reset capped at 15 minutes ahead, and the path is blocked exactly if at most one request or 2 percent are left before the reset; unreadable headers change nothing; a wait asked for without budget headers blocks the path for just that long, at most 15 minutes |
| RateLimiter.Limiter.MarkRateLimitedFor | internal/xclient/ratelimit.go:135-153 | the path is blocked for the time asked for or longer, never beyond the bound if the time asked for is within it, and no other path changes |
| RateLimiter.Limiter.Refund | internal/xclient/ratelimit.go:159-170 | gives one request back, never beyond the limit, and only to a known budget |
| RateLimiter.Limiter.BlockedReset | internal/xclient/ratelimit.go:212-231 | the earliest end of a block on any path that still lasts, five seconds included |
| CookiePool.Pool.Scan | internal/xclient/client.go:350-374 | chooses the first eligible client after the last choice, all passed over being ineligible; if none, all are disabled or an enabled one is blocked on the path |
| CookiePool.Pool.EarliestBlockedWait | internal/xclient/client.go:400-418 | the distance to the earliest reset over all enabled clients and paths |
| CookiePool.Pool.Select | internal/xclient/client.go:345-398 | while nobody else touches the limiters and these obey their bound: total waiting is at most 15 minutes 5 seconds, ErrAllClientsRateLimited is never returned, and with one client not disabled the result is an eligible client |
| CookiePool.ResetBound | internal/xclient/client.go:335-398 | every wait targets a moment at most 15 minutes 5 seconds after the start |
| CompressWriter.StreamsMore | internal/httpapi/compress.go:139-200 | what one more call changes about streaming: other types, a flush or an overflow make the response stream, nothing undoes it |
| CompressWriter.StartDecides | internal/httpapi/compress.go:139-174 | the first call that starts the response decides its status (200 if it is not a header call), and the last type set before it the type; later calls change neither |
| CompressWriter.AllJoins | internal/httpapi/compress.go:156-174 | what is written adds up call by call |
| CompressWriter.Writer.WriteHeader | internal/httpapi/compress.go:139-154 | only the first call counts; a type other than JSON makes the response stream |
| CompressWriter.Writer.Write | internal/httpapi/compress.go:156-174 | no byte is lost or reordered between buffer and connection, the buffer never exceeds 2 MiB, the status is sent at most once |
| CompressWriter.Writer.Flush | internal/httpapi/compress.go:183-198 | everything buffered goes out in order and the response streams from then on |
| CompressWriter.Writer.Finish | internal/httpapi/compress.go:210-230 | the client decodes the concatenation of all writes under the first status; the body is compressed if and only if it is unstreamed JSON of at least 1024 bytes and an encoding was negotiated, and then nothing was sent before |
| CompressWriter.Serve | internal/httpapi/compress.go:120-230 | the client decodes all that was written under the first status; the body is compressed if and only if an encoding was negotiated and the response is JSON of 1024 bytes to 2 MiB that was never flushed |
| CookieSecrets.FieldRoundTrip | internal/config/config.go:415-436 | submitting the shown value of a field keeps the stored one, and the placeholder is never stored |
| CookieSecrets.NewFieldStored | internal/config/config.go:415-436 | a new secret is stored unless the environment sets the field; what is shown tells only whether there is one |
| CookieSecrets.WithCookieIDs | internal/config/config.go:525-532 | fills exactly the blank ids, in place, with cookie-index |
| CookieSecrets.RedactAdditionalCookies | internal/config/config.go:313-338 | shows every row with its id and placeholders for its secrets |
| CookieSecrets.ShownHidesSecrets | internal/config/config.go:313-338 | what is shown holds no secret and tells for each field whether there is one |
| CookieSecrets.MergeRows | internal/config/config.go:362-394 | the merge loop with its id map and seen set equals the specified merge |
| CookieSecrets.FieldTaken | internal/config/config.go:370-385 | in a known row each field typed in is stored as it is, and each placeholder brings its stored secret back |
| CookieSecrets.UnknownTaken | internal/config/config.go:370-385 | in an unknown row a placeholder is blanked and everything else is stored as it is |
| CookieSecrets.MergedExact | internal/config/config.go:362-394 | exactly the submitted rows that are first with their id and not empty are stored, in the order submitted |
| CookieSecrets.WholeSetting | internal/config/config.go:349-361 | a blank or clearing submission clears, the placeholder keeps, other text is stored as it is |
| CookieSecrets.RestoreAdditionalCookies | internal/config/config.go:349-405 | the restored setting as specified for every kind of submission |
| CookieSecrets.PlaceholderNeverStored | internal/config/config.go:340-405 | no structured submission stores a placeholder, an empty row or a row without an id |
| CookieSecrets.SelectionRestores | internal/config/config.go:313-405 | any selection of the shown rows in any order restores exactly those rows with their secrets, if the filled ids are distinct |
| CookieSecrets.AllRowsRestoreIff | internal/config/config.go:313-405 | sending back all rows restores all of them if and only if the filled ids are distinct |
| CookieSecrets.GeneratedIdMayCollide | internal/config/config.go:525-532 | a generated id that another row already has makes the round trip lose a row |

## Left out

- HTTP routing, server-sent events, TLS, static files, the web interface, log messages, issue wording, panics and recovery.
- SQL text, locking and migrations of SQLite; columns that no guard reads (progress, title, message, error, preview URL, byte counts).
- Network requests, parsing of responses, and the classification of errors: a page is a list of ids with a parse outcome, a download is given by its content or its failure.
- The rewriting of URLs to media identities, sha256, brotli and gzip: arbitrary functions, the encoders invertible.
- Post ids that are not numbers: the comparisons' fallback for them is written out in `Timeline` and `ArchiveRounds`, but the refinement and the run lemmas assume numeric ids.
- The page cap of a scan and its stop after three empty pages are modelled, but posts beyond them count as not listed.
- The Unicode lower-case table is a parameter, in schedules and in the array version of user attribution; it maps one character to one character.
- Invalid UTF-8 in file names, sanitising of file names, media extensions, and the choice of the base name.
- Expiry of the library caches by age is a step that empties them at any time; the mutex around building is not modelled, so more builds overlap than in the program.
- The collection of orphan files and the filters of the library listing: both sources are given lists.
- Unavailable-media records, video posters, list entities, user links, case-insensitive file systems, and deletion of directories.
- Deletion of a recorded file or a rename of its directory while a download is under way.
- A media key that equals "sha256:" followed by a hash, where one call would wait for itself.
- Requests through a chosen client and the hand-over after a rate limit (`graphQLWithClient`), disabling and enabling of clients.
- The proxy address and other fields of a submitted configuration; parsing of cookie texts: a setting is blank, cleared, masked, unstructured text or rows.
- Write errors of the connection, informational status codes, and the Vary header.
- Publish.Dir.PublishTempFile: others act between two attempts, between placeholder and rename, before the check of the old base file and before its removal; they add and remove files but do not write into one, and leave the temporary file alone.
- LibraryPage.PageUncutIff: the first record left out is not an orphan, too; if it is (the file was recorded after the orphans were collected), the condition is shown to suffice (`PageUncut`), not to be necessary.
- JobStore.Store.PruneFailedTweets: of the three deletes of the function only the one on failed tweets is modelled; the tables of failed and unavailable media are not.
- EntityRename.Entity.EnsureUserEntity: the entity is located under the parent directory it was stored with.
- MediaDownload.Downloads.DownloadMedia: one call alone under its locks; the interleaving of calls is the subject of MediaStore.
- CookiePool.Pool.Select: the pool's next position is changed by this call only.
