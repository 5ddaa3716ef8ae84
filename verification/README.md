# A verified model of ytsync

ytsync mirrors YouTube channels onto the LBRY chain. This project models the parts of it that carry
state from one step to the next, and proves what they keep: a wallet that travels between S3 and one
slot on a machine, a database that is brought into agreement with the chain, a generator of claim
names, three small concurrent protocols, a pool of addresses with the clients that retry on it, the
arithmetic of refills, and the tag sanitizer.

`dafny verify dfyconfig.toml` checks everything.

## How it is built

| module | models |
|---|---|
| `Custody`, `Cycle`, `Manager` | wallet custody: which moves keep wallets from being lost; one channel cycle; the manager's loop |
| `Ranking`, `Claims`, `Dedup`, `Latest`, `Reconcile`, `Remote`, `Integrity` | duplicate claims, and the database against the chain |
| `Names`, `NameShape`, `NameCase`, `NameTidy`, `NameCollisions`, `Titles`, `Namer` | claim names, what they look like, which of them have stray dashes or coincide, and how free ones are found and published |
| `WorkerPool` | the producer and the workers of a channel's videos |
| `Abandon` | the producer and the consumers that abandon supports |
| `Timing` | the lock-free counters |
| `IpEntries`, `IpRefresh`, `IpLeases`, `IpBans`, `IpPool`, `IpRuns` | the address pool: its entries, the refresh of its list, leases, bans and their timers, the pool itself, and runs of it |
| `Downloads`, `YtDownload` | the two clients of the pool that retry |
| `Refill` | required balance, refill, send-back |
| `TagNames`, `Tags` | the shape of a tag, and the sanitizer |
| `Options`, `Collections` | helpers |

Code that updates state step by step is a class or a method with loops, and each such method is proved
against a specification function or a relation between the old and the new state. The concurrent
protocols are state machines: a schedule is any sequence of atomic steps, and the theorems hold for
every schedule. History that no program variable holds (everything ever written to a wallet, which
consumer took a claim, which address was leased when) is part of the model's state, and says so.

How calls that leave the process (S3, the daemon, the database, the file system, yt-dlp) come out is a
parameter of the methods that make them, so the contracts say what follows from it: what is there
afterwards, which error is reported, and that all goes well if the calls do. A failed call may have taken
effect. The chain and the database of `Remote` fail at any time, unless they are said to be working. Go
maps are gone through in any order.

## What is assumed

- An S3 upload is atomic, though a failed one may have reached S3; reads see the last write; one server
  processes a channel at a time. The 30 minutes of upload attempts are enough for one, and every attempt
  sends the whole file (`manager/s3_storage.go:234-255` hands the same open file to each).
- A daemon that comes up without a wallet file creates one, and a running daemon keeps its file.
- Marking a video inserts or replaces its row and refuses an empty claim id or name
  (`sdk/api.go` shows only the client side). An abandoned claim is listed until a block is in, and none is
  still listed when the integrity check starts.
- A claim id has one unspent output on the chain, so two items of a list with the same id are the same claim.
- The daemon rejects a claim name for multiple claims only if it is in a finite set.
- Unicode's lower-casing is a parameter: it keeps dashes, hashes, parentheses and the space and makes none,
  makes and removes no separator, and lowers nothing twice. MD5 is a parameter.
- Go 1.22, as `go.mod` says: loop variables are per iteration.

## What turned out not to hold

Each of these is a theorem with the exact condition, or with a concrete case.

- A wallet that a cycle brings into the slot stays there exactly if the daemon is not seen to stop or the
  upload does not work, whatever the error of the cycle (`Cycle.WholeCycleMoves`). A daemon that is not seen
  to stop is no error: the cycle can report none, and every later cycle of the run fails
  (`Cycle.WholeCycleError`, `Manager.LeftBehindFreezesS3`).
- A failed upload of the blockchain database on top of another error keeps the channel from being marked
  as failed; on its own it does the opposite (`Manager.BlockchainUploadHidesFailures`).
- The first attempt at a claim name can give the name of a later one, exactly if the title meets with its
  number in one of two ways (`NameCollisions.FirstAttemptEqualsIff`; a title for each way in `Titles`).
- A later attempt can get a leading or doubled dash, exactly if the slug is empty or a chunk is cut at a
  dash (`NameTidy.LaterAttemptIsTidyIff`). A title of plain letters comes to that at the tenth attempt
  (`Titles.DoubledDash`).
- Running `fixDupes` again on reordered survivors abandons a claim exactly if a level foreign claim now
  comes first (`Ranking.ReorderedPassIsIdleExceptOnForeignTies`); two level claims are such a list
  (`Ranking.ReorderedPassCanAbandon`).
- Without workers a channel with videos never ends; `--concurrent-jobs` is not checked
  (`WorkerPool.StuckOnlyWithoutWorkers`). Without workers no support is abandoned, and no error says so
  (`Abandon.NoConsumersAbandonNothing`).
- The lowest quality of a video is never asked for (`YtDownload.LowestQualityIsNeverTried`), the branch for
  another user agent is dead, and yt-dlp ending with status 1 and no output counts as a success
  (`YtDownload.SilentFailureCountsAsDone`).
- A send-back can be followed by a refill (`Refill.SendBackMayCostARefill`).
- What is required pays for every listed video without a row exactly if all rows are for listed videos, or
  all listed videos have one: rows for other videos count against them (`Refill.RequiredIsPriceIff`).
- Which tags are curated depends on the order of the input exactly for contested tags
  (`Tags.FlagDependsOnOrderIffContested`). Not every table entry can be found: exactly
  those in the normal shape are (`TagNames.FoundExactlyIfNormal`). 35 entries are not in it.
- The timer of a ban lifts it exactly if the list is still the one in which the timer was started and its
  place still has the address (`IpBans.BanIsLiftedIff`). A refresh spoils that (`IpRuns.LostByARefresh`),
  and so does a sort (`IpRuns.LostByASort`). A ban is lost when it is in force at a refresh, or when a timer
  ends on an entry that is not throttled (`IpPool.Pool.UpdateIps`, `IpPool.Pool.Unban`). As many entries as
  bans are lost stay throttled until the next refresh, and none is left open if that is all of them
  (`IpBans.LostBansStay`).
- The timer that is started for an address that is not in the pool panics (`IpPool.Pool.Unban`).
- An address is leased as often as the interfaces list it, without a release in between
  (`IpRuns.LeasedAsOftenAsListed`, and after a refresh `IpRuns.NewlyLeasedAsOftenAsListed`). A release
  reaches its first entry only: the address is out of use exactly if no later entry was in use
  (`IpLeases.ReleasedIff`). So does a ban: the address is closed exactly if no later entry was open
  (`IpBans.BannedIff`).
- `GetIP` reads the address from the leased place after the pool is unlocked. With distinct last uses it
  reads the leased one exactly if as many entries were used longer ago as there are places before it
  (`IpEntries.ReadIsRightIff`). Two clients can get the same address (`IpRuns.SameAddressForTwo`).
- The last trim of `normalizeTag` and the blacklist of `truncateUnicode` never remove anything
  (`TagNames.TidiedIsTidy`, `NameShape.StripRemovesNothing`).

## Model

| member | source | states |
|---|---|---|
| `Custody.GuardIsExact` | manager/s3_storage.go:40-261 | from a state that lost nothing, a move leads to one that lost nothing if and only if its guard holds: what is overwritten or removed is on S3, uploads go under the own key, a daemon makes a new wallet only where S3 has none |
| `Custody.UnguardedBreaksInv` | manager/s3_storage.go:40-261 | without its guard every move really loses a wallet or stores it under a foreign key, but for the removal of an uploaded file under a running daemon, which only leaves the daemon without its file |
| `Custody.HistoryGrows` | manager/s3_storage.go:40-261 | the history that must not get lost gains exactly what a running daemon writes to the channel's file, or makes it with |
| `Custody.CheckedIsGuarded` | manager/s3_storage.go:191-193 | the check that the code makes before a download, an empty slot, is stronger than the guard asks for |
| `Custody.GuardedRunKeepsInv` | manager/ytsync.go:206-235 | over any run of guarded moves of any length, every channel's full wallet is in the slot or on S3 under its own key |
| `Custody.CutAnywhereLosesNothing` | manager/ytsync.go:438-488 | a crash at any move loses nothing, and leaves a state a new run may start from |
| `Custody.OneMoreMove` | manager/s3_storage.go:40-261 | a checked move keeps a run guarded, and keeps that every download of it found the slot empty |
| `Cycle.Machine.ValidInv` | manager/ytsync.go:181-288 | every state a cycle can reach, with any step failing, satisfies the custody invariant |
| `Cycle.Machine.EveryMomentIsSafe` | manager/ytsync.go:181-288 | at every moment of everything that has happened so far, every channel's newest wallet is in the slot or on S3 under its own key |
| `Cycle.TerminationStatusFits` | manager/ytsync.go:365-405 | synced is for no error, wiped for missing inputs, failed for the rest; no status is written exactly for the reasons on the list or an interrupt without an error |
| `Cycle.Sync.GetWalletPaths` | manager/s3_storage.go:175-195 | success means that the slot was looked at and is empty; failure is the fatal "already exists" |
| `Cycle.Sync.DownloadWallet` | manager/s3_storage.go:40-85 | an occupied slot stays; an empty one gets exactly the channel's object if S3 has one and the calls work; "not on S3" is reported exactly if S3 was asked and has none |
| `Cycle.Sync.UploadWallet` | manager/s3_storage.go:217-261 | if an attempt is confirmed and the removal works, the slot is empty and S3 has what was in it, under the owner's key; otherwise the slot still has it, and S3 got it exactly if an attempt reached it; the text of the error |
| `Cycle.Sync.StopDaemon` | manager/ytsync.go:452-464 | a daemon that dies or is seen to stop is down; meanwhile only its own file may have grown |
| `Cycle.Sync.PerformShutdownTasks` | manager/ytsync.go:438-488 | whatever the error of the cycle is: the wallet is uploaded exactly if this cycle owns it and the daemon was seen to stop; the error is nil exactly if it was and every step worked, and its text has that of each that failed |
| `Cycle.ShutdownError` | manager/ytsync.go:438-488 | the three errors that may come on top of one another, joined |
| `Cycle.TriedAll` | manager/s3_storage.go:242-258 | after the attempts to upload: the file is on S3 if any of them reached it, and the last was confirmed or the time is up |
| `Cycle.Sync.SetChannelTerminationStatus` | manager/ytsync.go:365-405 | the status written fits the error and is written exactly if it is the channel's own and the write takes effect; for a reason on the list nothing is written and the error is as it was |
| `Cycle.Sync.DownloadAndSync` | manager/ytsync.go:210-280 | an occupied slot ends the cycle at once, unchanged; otherwise there is no error exactly if every step works, and a wallet is in the slot exactly if it was downloaded or the daemon made one; it is the channel's own and known as such |
| `Cycle.Sync.RunDaemon` | manager/ytsync.go:256-285 | the daemon works on the wallet that is there, and makes the channel's own only where S3 has none; S3 is untouched; no error exactly if every step works |
| `Cycle.Sync.FullCycle` | manager/ytsync.go:181-288 | for every outcome of every call: no other channel's object changes; an occupied slot keeps its owner and is a fatal error; a wallet stays in the slot exactly if the cycle brought it and did not put it back, and is whole on S3 if it did; the error is nil exactly if every step worked, a daemon not seen to stop aside; the status fits the error |
| `Cycle.WholeCycleMoves` | manager/ytsync.go:206-235 | what the parts of a cycle amount to for slot and S3, whatever the error |
| `Cycle.WholeCycleError` | manager/ytsync.go:181-288 | what they amount to for the error |
| `Manager.OneMoreCycle` | manager/manager.go:131-160 | one more cycle keeps: no gap between cycles, no channel three times in a row, fatal errors end the run |
| `Manager.ThreeInARowDiffer` | manager/manager.go:131-136 | of any three cycles in a row of a sound log, not all are of one channel |
| `Manager.OccupiedSlotIsFatal` | manager/manager.go:143-160 | a cycle that got under way with the slot occupied reported a fatal error |
| `Manager.FatalErrorIsTheLast` | manager/manager.go:143-160 | a cycle with a fatal error is the last one, and the error of the run has its text |
| `Manager.LeftBehindFreezesS3` | manager/manager.go:143-160 | once a cycle leaves a wallet in the slot, the slot keeps its owner and S3 all its objects to the end of the run |
| `Manager.OccupiedIffLeftBehind` | manager/manager.go:123-186 | over any run, the slot is occupied in the end if and only if some cycle brought a wallet and did not put it back |
| `Manager.OnlyOwnCyclesTouchTheObject` | manager/manager.go:123-186 | over any run, only cycles of a channel change its object |
| `Manager.BlockchainUploadHidesFailures` | manager/ytsync.go:477-487 | a failed blockchain upload on top of another error suppresses the status; alone, it does so exactly if its text is on the list |
| `Manager.SyncManager.SyncChannel` | manager/manager.go:137-186 | one pass through the loop's body: one cycle of the channel more, the error of the run if it is fatal or the clean-up fails, the count, and which loops end |
| `Manager.SyncManager.SyncQueued` | manager/manager.go:123-187 | which of the queued channels got a cycle, in order, up to the .update file, an error, the .freeze file, an interrupt or the limit, whichever came first; those that would be a third cycle in a row are passed over and marked as failed |
| `Manager.AllAreCycled` | manager/manager.go:123-141 | a queue without three in a row is synced whole and in order |
| `Manager.SyncManager.VisitOne` | manager/manager.go:123-187 | one channel of the queue: the .update file, a third cycle in a row, or a cycle |
| `Manager.SyncManager.FetchChannels` | manager/manager.go:77-118 | the channels are those the database gave for the queues of the flags, asked until one has no answer: queues of failed and syncing channels whole, and of the first other queue that has any its first channel, which ends the search; a single-channel run goes on exactly with one |
| `Manager.SyncManager.Enqueue` | manager/manager.go:109-115 | the loop over one queue takes it whole or its first channel only |
| `Manager.OneChannelOfOtherQueues` | manager/manager.go:102-118 | every channel but the last comes from a queue that is taken whole, and none of such a queue that was asked for is left out |
| `Manager.SyncManager.Start` | manager/manager.go:52-193 | for any number of rounds and any outcomes: every round that is not suspended fetches its queue and syncs it, until an error or an interrupt ends the run; the cycles are gapless, never the same channel three times in a row, an occupied slot or any other fatal error ends the run with that error, at no moment is a wallet lost or under a foreign key, and no download overwrote an occupied slot |
| `Manager.SyncManager.Round` | manager/manager.go:73-190 | one round: no space or no answer of the database is its error, otherwise the fetched queue is synced, and a run for one channel or a single run ends |
| `Manager.SingleRunHasOneRound` | manager/manager.go:188-190 | a run for one channel, or a single run, has at most one round that is not suspended |
| `Ranking.OneKeptPerVideo` | manager/ytsync.go:523-562 | of the claims for one video exactly one is kept: the highest, the earliest of those level; all others lose |
| `Ranking.LoserLoses` | manager/ytsync.go:540-547 | what the running comparison turns away has lost against a claim of the list |
| `Ranking.BestIsUnbeaten` | manager/ytsync.go:540-547 | the remembered claim is beaten by none seen so far |
| `Ranking.Pass.AllDoomedGo` | manager/ytsync.go:530-561 | after the whole list exactly the losing claims that may be abandoned are gone, and the flag says whether there were any |
| `Ranking.Pass.BestStays` | manager/ytsync.go:530-561 | the kept claim of a video is never abandoned, and every other one of ours is |
| `Ranking.Pass.OnlyDoomedGo` | manager/ytsync.go:550-556 | at every point of the pass only losing claims have been abandoned |
| `Ranking.SecondPassDecidesTheSame` | manager/ytsync.go:523-562 | on the survivors in their order, a second pass keeps and loses what the first did: it is a fixpoint |
| `Ranking.SecondPassIsIdle` | manager/ytsync.go:523-562 | on the survivors in their order a second pass abandons nothing |
| `Ranking.ReorderedPassIsIdleExceptOnForeignTies` | manager/ytsync.go:523-562 | on reordered survivors a second pass abandons a claim if and only if a foreign claim as high now comes before it |
| `Ranking.ReorderedPassCanAbandon` | manager/ytsync.go:523-562 | two level claims of which the first is ours survive a pass, and in reversed order ours does not |
| `Dedup.ChoiceOfFirst` | manager/ytsync.go:530-556 | at the first occurrence of a claim: of two claims for a video the lower one goes, the later one if level, and only if it is ours |
| `Dedup.ChoiceOfRepeat` | manager/ytsync.go:539-556 | a claim that is in the list again changes nothing: it is the kept one, or has lost and is gone if it is ours |
| `Dedup.PassFixes` | manager/ytsync.go:523-562 | only claims with another as high for their video go, at an address that may be abandoned and for a video not transferred; after a successful pass every such claim with a higher one is gone |
| `Dedup.DifferentVideosStay` | manager/ytsync.go:523-562 | claims whose thumbnails end in different ids lose nothing |
| `Dedup.FixedForAll` | manager/ytsync.go:523-562 | so it is for all claims on the chain, of which the pass sees the channel's |
| `Dedup.HighestStays` | manager/ytsync.go:523-562 | every video keeps a highest claim, its only one if the others were ours |
| `Dedup.AfterAbandoning` | manager/ytsync.go:523-562 | even after a failed pass no video lost its highest claim; after a successful one only highest claims are left if the duplicates were ours |
| `Latest.IsTheLatest` | manager/ytsync.go:575-598 | the map has the last claim of each video |
| `Latest.HasEveryKey` | manager/ytsync.go:575-598 | the map misses no video |
| `Claims.VideoIDIsLastElement` | manager/ytsync.go:536-537 | a claim has the video id `id` if and only if its thumbnail's address is `id`, or ends in a slash and `id`, and `id` has no slash |
| `Claims.YtsyncClaimIff` | manager/ytsync.go:495-521 | the claims that count are exactly the streams of the channel, new or updated, with a thumbnail on one of the two hosts |
| `Claims.PublishedIsYtsyncClaim` | sources/youtubeVideo.go:666-676 | what ytsync publishes for a video counts, has its id, and version 2 |
| `Claims.MetadataVersionIs` | manager/ytsync.go:583-586 | version 2 is for thumbnails on the new host, version 1 for the rest |
| `Reconcile.CorrectingThenRemoving` | manager/ytsync.go:608-719 | correcting the wrong rows and removing the stale ones gives exactly the reconciled database; no chain video's row is removed |
| `Reconcile.CorrectedNothing` | manager/ytsync.go:668-674 | with nothing to fix the rows are untouched, so not reloading them is right |
| `Reconcile.SecondPassFindsNothing` | manager/ytsync.go:602-721 | after one successful pass a second one on the same claims has nothing to fix and, with removal, nothing to remove |
| `Reconcile.PublishedRowsCoverTheChain` | manager/ytsync.go:787-798 | the case that "should never happen" does not: chain videos never outnumber published rows |
| `Reconcile.ChainNamesAreMentioned` | manager/ytsync.go:608-665 | after a pass every claim name on the chain is in the rows |
| `Reconcile.MapOfNames` | manager/ytsync.go:575-598 | the map names, for exactly the videos with a claim on the chain, one of their claims |
| `Reconcile.RowsNameTheHighestClaims` | manager/ytsync.go:745-808 | when the duplicates are gone and the database is reconciled, every video there was a claim for has a published row that names a highest one |
| `Reconcile.ReconciledRows` | manager/ytsync.go:745-808 | a reconciled database covers the chain, mentions its names and, if no lower claim is left, names a highest claim for every video |
| `Remote.Chain.StreamAbandon` | manager/ytsync.go:552-555 | abandoning removes at most that claim, and removes it if it succeeds; it succeeds if the chain is working |
| `Remote.Chain.StreamList` | manager/ytsync.go:732-735 | the list has exactly the claims of the account, or of all, in any order |
| `Remote.Chain.WaitForNewBlock` | manager/ytsync.go:758-762 | once a block is in, lists show no abandoned claim any more |
| `Remote.Database.SetChannelStatus` | sdk/api.go:206-215 | the rows, and the set of the non-empty claim names in them |
| `Remote.Database.MarkPublished` | manager/ytsync.go:651-664 | the row, and only it, says what was sent, if the call succeeds |
| `Remote.Database.DeleteVideos` | manager/ytsync.go:707-710 | removes all of the given rows or, if it fails, perhaps none |
| `Integrity.Sync.ChooseClaim` | manager/ytsync.go:530-550 | the branches for one claim: the same claim id again, a higher claim, and any other; what they amount to is `Dedup.ChoiceOfFirst` and `Dedup.ChoiceOfRepeat` |
| `Integrity.Sync.FixDupes` | manager/ytsync.go:523-562 | abandons exactly the losing claims of ours, whatever fails only some of them, and tells whether there were any; claims for different videos all stay; it succeeds if the chain is working; a claim may be in the list more than once |
| `Integrity.Sync.MapFromClaims` | manager/ytsync.go:575-598 | the loop builds the last-wins map |
| `Integrity.Sync.SetStatusSyncing` | manager/ytsync.go:112-122 | on success the rows in memory are those of the database and the namer knows exactly the names in them, otherwise both are as before |
| `Integrity.Sync.FixRow` | manager/ytsync.go:608-665 | a row is written if and only if it is missing or differs in id, name, version, published or transferred; then it agrees with the chain |
| `Integrity.Sync.FixRows` | manager/ytsync.go:608-666 | in any map order, exactly the differing rows are corrected, all others stay, and the count is theirs |
| `Integrity.Sync.CollectStale` | manager/ytsync.go:676-704 | exactly the published, untransferred rows without an own claim are listed |
| `Integrity.Sync.UpdateRemoteDB` | manager/ytsync.go:602-721 | a successful pass reconciles database, memory and chain, returns the right counts, and leaves the namer with the names of the rows in memory |
| `Integrity.Sync.UpdateTwice` | manager/ytsync.go:602-721 | of two successful passes over the same claims the second fixes nothing and, with removal, removes nothing |
| `Integrity.Sync.GetClaims` | manager/ytsync.go:723-743 | exactly the channel's claims, of the default account or of all |
| `Integrity.Sync.CountPublished` | manager/ytsync.go:787-792 | the number of published rows |
| `Integrity.Sync.ListWithoutDupes` | manager/ytsync.go:750-769 | the list that is worked on afterwards is that of the chain after the duplicates went, and a block confirmed it |
| `Integrity.Sync.CheckIntegrity` | manager/ytsync.go:745-808 | whatever fails, no video loses its highest claim and only the right claims go; on success the database mirrors the chain, the published rows cover it, the namer knows every name on it, and if the duplicates were ours every video has a published row that names one of its highest claims; it succeeds if chain and database are working and every claim has an id and a name |
| `Names.DecimalIsInjective` | namer/names.go:65-68 | different attempts have different numerals |
| `Names.NumberOfDecimal` | namer/names.go:65-68 | a numeral reads as its number |
| `Names.SuffixReads` | namer/names.go:65-68 | the first attempt has no suffix, a later one a dash and its number |
| `Names.SeparatorsAre` | namer/names.go:13-13 | exactly the runes of the two regular expressions are separators, or on the blacklist |
| `Names.WidthIsLeast` | namer/names.go:74-84 | a rune takes as few bytes as UTF-8 can hold it in |
| `Names.SuffixIsLast` | namer/names.go:65-68 | a numbered name can be taken apart in one way only |
| `Names.AttemptsAreTold` | namer/names.go:64-93 | from the second attempt on, names of different attempts differ, even for different titles |
| `NameCollisions.FirstAttemptEqualsIff` | namer/names.go:64-93 | for every title and every later attempt: the two names are equal if and only if, after some whole chunks with no room for more before the suffix, the next chunk is that number and nothing after it fits, or does not fit and is cut right after it |
| `NameCollisions.PacksMeet` | namer/names.go:78-92 | the same for the packing of any chunks |
| `Titles.SameNameByACut` | namer/names.go:84-92 | a title of the second kind: "counterintelligence 20000leaguesunderthesea", attempts 1 and 2 |
| `Titles.SameNameByANumber` | namer/names.go:82-92 | a title of the first kind: "hippopotomonstrosesquippedaliophobia 10", attempts 1 and 10 |
| `Names.TruncateUnicode` | namer/names.go:95-108 | the loop takes that many runes of the stripped name |
| `Names.PackChunks` | namer/names.go:73-90 | the loop over the chunks packs them as specified, with byte limits for whole chunks and rune limits for a cut |
| `Names.GetClaimNameFromTitle` | namer/names.go:64-93 | the name of an attempt is the packed part and the suffix; what it looks like is in the rows about `ClaimName`: `NameCase.NameIsLowered`, `NameShape.NameIsPrefixOfSlug`, `NameTidy.LaterAttemptIsTidyIff` |
| `NameShape.SlugShape` | namer/names.go:71-71 | a slug has no separator and no dash at its ends |
| `NameShape.SplitJoins` | namer/names.go:71-71 | splitting at dashes loses nothing: the chunks join to the slug, and have no dashes |
| `NameShape.StripRemovesNothing` | namer/names.go:96-97 | the blacklist of `truncateUnicode` removes nothing from what it is given |
| `NameShape.PackIsPrefix` | namer/names.go:78-90 | packing stops somewhere in the joined chunks and within the limit in runes |
| `NameShape.NameIsPrefixOfSlug` | namer/names.go:64-93 | what precedes the suffix is a prefix of the non-empty chunks joined by dashes, for every title and attempt |
| `NameShape.NothingIsCutThatFits` | namer/names.go:64-93 | a slug that leaves room for the suffix within 40 bytes comes out whole |
| `NameShape.AtMost40Runes` | namer/names.go:64-93 | every name has at most 40 runes, for every 64-bit attempt |
| `NameCase.NameIsLowered` | namer/names.go:64-93 | what precedes the suffix is in lower case, for every title and attempt |
| `NameCase.SameNameInAnyCase` | namer/names.go:71-71 | titles that differ in case alone have the same names |
| `NameTidy.FirstAttemptIsTidy` | namer/names.go:64-93 | the first attempt has no leading, trailing or doubled dash |
| `NameTidy.LaterAttemptIsTidyIff` | namer/names.go:64-93 | for every title and every later 64-bit attempt: there is no leading, trailing or doubled dash if and only if the slug is not empty and no chunk that does not fit is cut at a dash |
| `NameTidy.PackIsTidyUnlessCut` | namer/names.go:78-90 | the same for the packing of any chunks and any limit of at least 20 |
| `Titles.ChunksOfSentence` | namer/names.go:71-71 | the chunks of a title of plain words are those words, each in lower case |
| `Titles.LeadingDash` | namer/names.go:64-93 | an empty slug: "???" at attempt 2 is "-2" |
| `Titles.DoubledDash` | namer/names.go:84-92 | plain letters: "telecommunications counterintelligence" at attempt 10 is "telecommunications--10" |
| `Titles.DoubledDashOfWideLetters` | namer/names.go:84-92 | a letter of two bytes: "télecommunications counterintelligence" at attempt 2 |
| `Titles.DoubledDashInside` | namer/names.go:84-92 | a cut at a dash inside the name: "electromagnetism of counterintelligence" at attempt 100 |
| `Namer.TitleAttemptsRunOut` | namer/names.go:37-43 | a finite set of names cannot hold all attempts at a title: one of the first \|names\| + 2 is free |
| `Namer.HashAttemptsRunOut` | namer/names.go:49-55 | nor all numbered hashes: one of the first \|names\| + 1 is free |
| `Namer.HashNameReads` | namer/names.go:46-56 | a fallback name is the hash, a dash, and the number of its attempt |
| `Namer.Namer.SetNames` | namer/names.go:27-29 | replaces the set of names; the names handed out are counted from here |
| `Namer.Namer.FirstFreeTitle` | namer/names.go:35-43 | the first search ends within its bound at the first free attempt |
| `Namer.Namer.FirstFreeHash` | namer/names.go:46-56 | the second search ends within its bound at the first free number |
| `Namer.Namer.GetNextName` | namer/names.go:31-61 | the name was free, is the only one added, has at least two bytes, and is the first free one; names handed out since the last `SetNames` are pairwise distinct |
| `Namer.TryNextName` | sources/shared.go:19-25 | one round: a new name, and what the daemon says of it |
| `Namer.PublishAndRetryExistingNames` | sources/shared.go:16-31 | at most \|taken - names\| + 1 calls, each with a new name; all but the last are rejected for multiple claims, and the answer to the last one is the result, with that name |
| `WorkerPool.InitialInv` | manager/ytsync.go:846-859 | the pool starts with nothing taken, called or flagged |
| `WorkerPool.StepKeepsInv` | manager/ytsync.go:870-1011 | every atomic step of the producer, a worker or the outside keeps: taken videos are a prefix, each is worked on by its one owner or handled unless stopped, calls within the limit, flags before stop, first reason kept |
| `WorkerPool.VideoStaysWithItsOwner` | manager/ytsync.go:881-904 | a video is owned by the worker that took it for good, and only that one calls `processVideo` for it |
| `WorkerPool.FirstReasonIsKept` | manager/ytsync.go:78-86 | over any run, a flagged reason is never replaced |
| `WorkerPool.TakenVideosAreAPrefix` | manager/ytsync.go:996-1008 | at every moment of every schedule, the videos taken are the first ones, and none has more than `MaxTries` calls |
| `WorkerPool.CallsAreMadeAgainRightly` | manager/ytsync.go:896-935 | a video gets another call only after a failure that is not on the no-retry list, is neither fatal nor an interruption, leaves calls to make, and found the block or funds it needed |
| `WorkerPool.HandledIff` | manager/ytsync.go:902-976 | in the end a video counts as handled if and only if its last call worked or failed in a way that allows no other |
| `WorkerPool.StoppedIff` | manager/ytsync.go:902-930 | in the end the pool was stopped if and only if something outside stopped it, or a last call was interrupted, fatal, or needed a block or funds that were not to be had |
| `WorkerPool.NoCallAfterTheStop` | manager/ytsync.go:873-900 | once the pool is stopped no call is made and no worker asks for a video |
| `WorkerPool.ErrorOfTheSync` | manager/ytsync.go:852-867 | without the list of videos none is handed out and that error is returned; otherwise the reason flagged first |
| `WorkerPool.WithoutAStopAllAreHandled` | manager/ytsync.go:870-976 | without a stop every video is handled with 1 to `MaxTries` calls; its last call worked, or its failure was not to be retried, or the calls were used up, and every call before failed in a way to retry; `doSync` returns nil |
| `WorkerPool.FlaggedFailureStopsThePool` | manager/ytsync.go:860-867 | a flagged failure implies the stop flag at the end, and `doSync` returns its first reason |
| `WorkerPool.FatalErrorIsFlagged` | manager/ytsync.go:908-912 | a fatal error of any call was flagged by the end |
| `WorkerPool.StepMakesProgress` | manager/ytsync.go:870-1011 | every step lowers a measure, however the steps are interleaved |
| `WorkerPool.EveryScheduleEnds` | manager/ytsync.go:846-861 | an explicit bound on the number of steps of any schedule |
| `WorkerPool.StuckOnlyWithoutWorkers` | manager/ytsync.go:846-861 | a reachable unfinished state has no step of the pool if and only if there are no workers, a video is on offer and nothing stopped it |
| `WorkerPool.NoWorkersDeadlock` | manager/ytsync.go:996-1008 | that state is reached for every channel with videos if there are no workers |
| `Abandon.OutputAmount` | manager/transfer.go:144-156 | the sum of the amounts, or nothing if one does not parse |
| `Abandon.ParsedIsSum` | manager/transfer.go:144-156 | each amount adds its value, wherever it is |
| `Abandon.StepKeepsConserved` | manager/transfer.go:84-179 | every step keeps each distinct claim id in exactly one place: being sent, queued, held by a consumer, or reported |
| `Abandon.StepKeepsInv` | manager/transfer.go:84-179 | and keeps the record of who took it and what the daemon answered, and that each response says what the last answer did |
| `Abandon.EachClaimIsAbandonedOnce` | manager/transfer.go:84-179 | with at least one consumer, in every schedule, each distinct claim id gets one response, from one consumer, after one call or, if that timed out, two |
| `Abandon.ClaimStaysWithItsConsumer` | manager/transfer.go:108-128 | the second call after a time-out is made by the same consumer, and by no other |
| `Abandon.NoConsumersAbandonNothing` | manager/transfer.go:103-103 | without consumers nothing is spent and nothing reported |
| `Abandon.SendingNeverBlocks` | manager/transfer.go:84-96 | the buffers are never too small: no send ever blocks |
| `Abandon.NeverStuck` | manager/transfer.go:176-179 | an unfinished state always has a step, with any number of consumers |
| `Abandon.StepMakesProgress` | manager/transfer.go:84-179 | every step lowers a measure |
| `Abandon.EveryScheduleEnds` | manager/transfer.go:84-179 | any schedule has at most six steps for each support, one for each consumer, and one |
| `Abandon.Total` | manager/transfer.go:181-189 | the loop adds up the successful responses |
| `Abandon.SumInAnyOrder` | manager/transfer.go:181-189 | the sum does not depend on the order of the responses |
| `Abandon.TotalIsWhatWasReleased` | manager/transfer.go:60-190 | in every schedule the total is the sum, over the distinct claim ids, of the amounts in the daemon's last answer, where that is a summary with amounts that all parse |
| `Timing.StepKeepsInv` | timing/timing.go:72-96 | every atomic step keeps: the counters are the sum and number of what was added, wrapped; each bound is its initial value or a duration, and within it are all calls past it |
| `Timing.FailedSwapMeansAnotherMoved` | timing/timing.go:75-94 | a compare-and-swap fails only because another call has moved the bound further |
| `Timing.FinishedCallIsWithinBounds` | timing/timing.go:72-96 | at every moment of every run a finished call's duration lies between the bounds |
| `Timing.QuietStateIsExact` | timing/timing.go:72-96 | when all calls are done the fields are the sum, the number, the least (at most the initial value) and the greatest of the durations |
| `Timing.StepMakesProgress` | timing/timing.go:75-94 | every step lowers a measure, failed swaps included |
| `Timing.EveryScheduleEnds` | timing/timing.go:72-96 | n concurrent calls make at most n(4n + 8) atomic steps |
| `IpEntries.SortByLastUse` | ip_manager/throttle.go:205-207 | some sorted permutation of the entries |
| `IpEntries.PermutationKeepsDistinct` | ip_manager/throttle.go:205-207 | sorting in place keeps the addresses pairwise distinct |
| `IpEntries.AllThrottledIn` | ip_manager/throttle.go:108-115 | true if and only if every entry is throttled, so also of an empty pool |
| `IpEntries.AllInUseIn` | ip_manager/throttle.go:120-127 | true if and only if no entry is free |
| `IpEntries.FirstFree` | ip_manager/throttle.go:214-222 | the scan of the sorted list finds a free entry used least recently, and the first free one, if there is one |
| `IpEntries.ReadIsRightIff` | ip_manager/throttle.go:205-254 | a place that is read later has the leased address if and only if as many entries were used longer ago as there are places before it, for last uses that do not coincide |
| `IpRefresh.RefreshIsRight` | ip_manager/throttle.go:77-103 | the refreshed list has exactly the current addresses, survivors unchanged, new ones free; those in use and those banned are the ones among the current that were |
| `IpRefresh.RefreshIsDistinctIff` | ip_manager/throttle.go:77-103 | a refresh keeps the addresses distinct if and only if no new address is listed twice |
| `IpRefresh.RefreshedAsOftenAsListed` | ip_manager/throttle.go:77-103 | a new address gets as many free entries as it is listed |
| `IpRefresh.AsSet` | ip_manager/throttle.go:82-85 | the set of current addresses |
| `IpRefresh.KeepCurrent` | ip_manager/throttle.go:87-94 | the loop keeps exactly the entries that are still there, in order |
| `IpRefresh.AddNew` | ip_manager/throttle.go:96-100 | the loop appends entries for exactly the unknown addresses |
| `IpLeases.LeaseCounts` | ip_manager/throttle.go:195-231 | a lease takes exactly one from the free entries, one from those of its address, and none from those of another |
| `IpLeases.ReleasedIff` | ip_manager/throttle.go:129-141 | of an address that may be listed more than once: it is out of use after its release if and only if no entry but the first was in use |
| `IpLeases.LeasedAgainOnlyOnceFreed` | ip_manager/throttle.go:129-231 | between two leases of an address there was a release, a release of all, or a refresh that dropped it |
| `IpBans.BannedIff` | ip_manager/throttle.go:157-171 | of an address that may be listed more than once: it is closed after its ban began if and only if no entry but the first was open |
| `IpBans.BanIsLiftedIff` | ip_manager/throttle.go:174-183 | of distinct addresses: a timer lifts its ban if and only if the list is still its own and its place still has the address |
| `IpBans.TimerKeepsRight` | ip_manager/throttle.go:174-183 | another ban is lost if and only if the timer ends on an entry that is not throttled; the rest of the timers keep their places |
| `IpBans.RefreshLosesBans` | ip_manager/throttle.go:77-103 | after a refresh every ban in force is lost: no timer is left for its entry |
| `IpBans.LostBansStay` | ip_manager/throttle.go:77-187 | no fewer entries are throttled than bans are lost, exactly as many if and only if no timer is left for the list; if it is all of them, no address is open |
| `IpPool.Pool.constructor` | ip_manager/throttle.go:37-75 | as many free entries for each address as it is listed; the addresses are distinct if and only if none is listed twice |
| `IpPool.Pool.NextIP` | ip_manager/throttle.go:195-231 | all-throttled, all-in-use and a lease come about exactly in their cases; the lock error never; a lease takes the first free entry of the sorted list, with the least last use, and changes nothing else; of distinct addresses none is leased while held; no ban is lost |
| `IpPool.Pool.ReleaseIP` | ip_manager/throttle.go:129-141 | frees and stamps the first entry of that address, and nothing else |
| `IpPool.Pool.ReleaseAll` | ip_manager/throttle.go:143-153 | frees exactly the entries that are not throttled |
| `IpPool.Pool.SetThrottled` | ip_manager/throttle.go:157-188 | throttles the first entry of that address and starts a timer on its place, unless it is throttled already; for an unknown address starts a timer without a place |
| `IpPool.Pool.Unban` | ip_manager/throttle.go:174-183 | a timer clears the flag of whatever entry is in its place by then, nothing if the list was replaced since, and panics if it has no place; another ban is lost if and only if that entry was not throttled |
| `IpPool.Pool.UpdateIps` | ip_manager/throttle.go:77-103 | leaves the surviving entries, in order and as they were, and then new ones; every ban in force is lost; distinct addresses stay distinct if and only if no new one is listed twice |
| `IpRuns.LeaseAll` | ip_manager/throttle.go:195-231 | leasing until nothing is free leases each address once for each of its free entries |
| `IpRuns.LeasedAsOftenAsListed` | ip_manager/throttle.go:37-75 | a new pool leases each address as often as the interfaces list it, with no release in between |
| `IpRuns.NewlyLeasedAsOftenAsListed` | ip_manager/throttle.go:77-103 | so does a pool after a refresh, for an address that it did not have |
| `IpRuns.LostByARefresh` | ip_manager/throttle.go:77-188 | a run: ban, refresh, end of the timer; no timer is left, and no address is open |
| `IpRuns.LostByASort` | ip_manager/throttle.go:157-231 | a run with no refresh: two bans from the first place; no timer is left, and one address is still throttled |
| `IpRuns.SameAddressForTwo` | ip_manager/throttle.go:195-256 | a run: two clients hold leases of different addresses and read the same one |
| `Downloads.SourceAddress` | downloader/downloader.go:189-209 | an address that was free is leased; otherwise none is free, nothing changes but the order, and it waits unless the sync is stopped |
| `Downloads.LeaseAndRelease` | downloader/downloader.go:104-115 | lease and release in a row cost no free entry for good, and leave every lease as it was if no address is listed twice |
| `Downloads.RunOnce` | downloader/downloader.go:104-115 | the lease of a command is given back when it ends |
| `Downloads.RunAndThrottle` | downloader/downloader.go:104-131 | after a command its address is given back, and throttled exactly if the error says so, which costs a free entry |
| `Downloads.Throttle` | downloader/downloader.go:127-131 | throttling an address that was given back costs a free entry, and bans exactly one address more if none is listed twice |
| `Downloads.Round` | downloader/downloader.go:104-134 | one pass through the loop's body ends the run rightly, or leaves the user agent and the attempts right |
| `Downloads.Run` | downloader/downloader.go:101-136 | of any pool, however the commands fail: at most three count, and every other one cost a free entry; it ends with success exactly if the last command worked, gives up only on an error not to retry or after three, uses the user agents in order; if no address is listed twice, no lease is held afterwards and each such command banned one address more |
| `Downloads.OneMoreCommand` | downloader/downloader.go:138-143 | the user agent of each command is decided by the extraction errors before it: none, the Google bot after one, Chrome after more |
| `YtDownload.ResultsAreOneThing` | sources/newYtDownload.go:33-92 | a retry is for throttling or a lower resolution, never both and never for a user agent; success exactly if the error output is empty and the other has none of three texts |
| `YtDownload.ErrorIff` | sources/newYtDownload.go:137-188 | which texts of the two outputs lead to which error, and in which order they count |
| `YtDownload.ReducesIff` | sources/newYtDownload.go:58-89 | a lower resolution is for missing fragments, a missing format and a file that is too big |
| `YtDownload.LadderFalls` | sources/newYtDownload.go:210-223 | the qualities fall strictly: 1080, unless the video is over an hour, 720, 480, 360 |
| `YtDownload.SilentFailureCountsAsDone` | sources/newYtDownload.go:55-91 | exit status 1 without output counts as success |
| `YtDownload.OneMoreAttempt` | sources/newYtDownload.go:319-327 | each reduction goes one step down the ladder |
| `YtDownload.LowestQualityIsNeverTried` | sources/newYtDownload.go:210-327 | 360 is never asked for, nor more than 720 for a video of over an hour |
| `YtDownload.YoutubeVideo.RunDownloader` | sources/newYtDownload.go:281-300 | the lease of an attempt is given back when it ends |
| `YtDownload.YoutubeVideo.Round` | sources/newYtDownload.go:278-341 | one pass through the loop's body ends the download rightly, or goes on with the step of the ladder and the remaining attempts right |
| `YtDownload.YoutubeVideo.TryQualities` | sources/newYtDownload.go:271-343 | the loop over the attempts keeps its index in range and is never left because none remain: an error is that of the last attempt, not worth a retry or at the end of the ladder |
| `YtDownload.YoutubeVideo.Download` | sources/newYtDownload.go:190-344 | of any pool, however the runs go: all but one of the qualities are charged at most, every other attempt cost a free entry, nil means an existing file or a success with the file there, and if no address is listed twice no lease is held afterwards |
| `YtDownload.YoutubeVideo.SetSize` | sources/newYtDownload.go:306-317 | the size is set exactly if the file is there and can be unlocked |
| `Refill.VideosToSync` | shared/shared.go:152-173 | the running maximum over the table in any order is the highest step reached |
| `Refill.ToInt64Wraps` | manager/setup.go:79-79 | the conversion of an unsigned number wraps around |
| `Refill.MoreSubscribersMoreVideos` | shared/shared.go:152-173 | monotone exactly as long as the larger number fits a signed 64-bit integer, or there is a limit |
| `Refill.CountRows` | manager/setup.go:86-100 | in any order, the numbers of published, not upgraded and unpublished rows |
| `Refill.RequiredIsPriceIff` | manager/setup.go:102-119 | what is required never exceeds the price of the listed videos without a row, an unmade channel claim and the upgrades; it is that price if and only if all rows are for listed videos or all listed videos have one |
| `Refill.SettledBalancePays` | manager/setup.go:102-165 | then the balance that a set-up leaves pays for all of them |
| `Refill.RefillIsEnough` | manager/setup.go:121-134 | a refill leaves at least the required amount and the minimum, adds at least one, and leaves less than two more than required |
| `Refill.SendBackLeavesOne` | manager/setup.go:135-165 | a send-back leaves one more than required, within half a hundredth |
| `Refill.SecondSetupIsIdle` | manager/setup.go:121-165 | after a refill a second set-up without an extra refill does nothing, unless the extra of the first was above what a manual channel may keep |
| `Refill.SendBackMayCostARefill` | manager/setup.go:121-165 | after a send-back a refill follows if and only if the amount was rounded up by more than the channel requires |
| `Refill.SentBackThenRefilled` | manager/setup.go:121-165 | 6.006 credits and nothing required: 5.01 go, and one is added |
| `Refill.Wallet.AddCredits` | manager/setup.go:562-595 | adds the amount exactly if the payment works, or fails and still arrives |
| `Refill.Wallet.AccountSend` | manager/setup.go:144-144 | the amount leaves exactly if the payment works, or fails and is made; one that is too large is not |
| `Refill.Wallet.SendBack` | manager/setup.go:136-164 | the printed amount leaves once, at once or after the merger, exactly if that payment is made; it works exactly if that payment does |
| `Refill.Wallet.Settle` | manager/setup.go:121-165 | the balance is settled exactly if the payment that is due is made, else untouched; it works exactly if that payment does |
| `Refill.Wallet.WalletSetup` | manager/setup.go:54-187 | from counts, table, flags and balance to a settled balance and a publish address: the channel's own if it is to be transferred, else one of the wallet; it works exactly if every call does and there is an address |
| `TagNames.SqueezedHasNoDoubles` | tags_manager/tags_mapping.go:79-88 | no two adjacent spaces are left |
| `TagNames.TidiedIsTidy` | tags_manager/tags_mapping.go:85-89 | letters or digits at both ends and single spaces; the last trim does nothing |
| `TagNames.NormalizedIsNormal` | tags_manager/tags_mapping.go:76-98 | every tag comes out in the normal shape or is skipped |
| `TagNames.NormalStays` | tags_manager/tags_mapping.go:76-98 | a tag in the normal shape is left alone: the shape describes exactly what can come out |
| `TagNames.NormalizeTwice` | tags_manager/tags_mapping.go:76-98 | normalizing is idempotent, with at most 50 bytes |
| `TagNames.HashBeforeATag` | tags_manager/tags_mapping.go:81-86 | a hash before a normal tag goes, unless the tag begins with a number and a space |
| `TagNames.NumberedHashBeforeATag` | tags_manager/tags_mapping.go:81-86 | then the number goes, too |
| `TagNames.ParenthesesAfterATag` | tags_manager/tags_mapping.go:82-87 | what is in parentheses after a normal tag goes, and they do |
| `TagNames.TextBeforeHashesStays` | tags_manager/tags_mapping.go:81-85 | what is no hash stays; with the next two rows, what is left of any text |
| `TagNames.NumberedHashGoes` | tags_manager/tags_mapping.go:81-85 | a hash, a number and a space go together |
| `TagNames.OtherHashesGo` | tags_manager/tags_mapping.go:81-85 | any other run of hashes goes alone |
| `TagNames.TextBeforeParenthesesStays` | tags_manager/tags_mapping.go:82-86 | what is no parenthesis stays; with the next two rows, what is left of any text |
| `TagNames.ParenthesesBecomeASpace` | tags_manager/tags_mapping.go:82-86 | text in parentheses becomes a space |
| `TagNames.OtherParenthesesStay` | tags_manager/tags_mapping.go:82-86 | a parenthesis that is not closed, or closed at once, stays |
| `TagNames.TrimFrontIs` | tags_manager/tags_mapping.go:84-87 | what comes before the first letter or digit goes |
| `TagNames.TrimBackIs` | tags_manager/tags_mapping.go:84-87 | and what comes after the last |
| `TagNames.SpacesBecomeOne` | tags_manager/tags_mapping.go:79-88 | a run of spaces becomes one |
| `TagNames.RunesAre` | tags_manager/tags_mapping.go:83-84 | the letters, digits and other runes that are allowed |
| `TagNames.FoundExactlyIfNormal` | tags_manager/tags_mapping.go:76-98 | an entry of the tables is found, as some tag normalizes to it, if and only if it has the normal shape itself |
| `TagNames.OtherRunesAreNeverFound` | tags_manager/tags_mapping.go:84-93 | so an entry with a rune that is not allowed is never found |
| `TagNames.ParenthesesAreNeverFound` | tags_manager/tags_mapping.go:1060-1069 | in particular, not one with a parenthesis |
| `Tags.WhatComesOut` | tags_manager/tags_mapping.go:112-145 | exactly which tags come out, for any order of the input |
| `Tags.SameTagsSameResult` | tags_manager/tags_mapping.go:36-72 | the tags that come out depend on the set of those that go in only |
| `Tags.OnlyTheNormalizedSetMatters` | tags_manager/tags_mapping.go:36-72 | so two lists that normalize to the same set give the same tags |
| `Tags.ChainedReplacementsDependOnOrder` | tags_manager/tags_mapping.go:121-129 | with a replacement that is itself replaced, the order matters |
| `Tags.UncontestedIsCurated` | tags_manager/tags_mapping.go:121-145 | what makes an uncontested tag curated |
| `Tags.LastTagDecides` | tags_manager/tags_mapping.go:131-138 | for a contested tag the last contender decides |
| `Tags.FlagDependsOnOrderIffContested` | tags_manager/tags_mapping.go:131-138 | a tag's flag is fixed by the set of inputs if and only if it is one of the channel's or uncontested |
| `Tags.Sanitizer.Cleanup` | tags_manager/tags_mapping.go:112-119 | the loop refines its specification |
| `Tags.Sanitizer.Replace` | tags_manager/tags_mapping.go:121-129 | the loop refines its specification |
| `Tags.Sanitizer.Add` | tags_manager/tags_mapping.go:131-145 | the two loops refine their specification |
| `Tags.SortedTags` | tags_manager/tags_mapping.go:57-67 | the tags with a flag, strictly ascending, from a map in any order |
| `Tags.InOrderHasNoRepeats` | tags_manager/tags_mapping.go:66-70 | the result has each tag once |
| `Tags.SanitizeTags` | tags_manager/tags_mapping.go:36-72 | the curated tags in order, then the others in order, and exactly the sanitized ones |

## Left out

- The contents of RPC, HTTP, S3, exec, VPN, docker, systemd and Slack calls: their outcomes stand for them.
- The blockchain database's own transfer to and from S3 is only a success or a failure, and so are the video directory, the VPN and the IP pool within a cycle.
- The transfer state that goes along with a channel's status, and the database write of the guard against looping beyond the status.
- Real time: cooldowns, block waits, the upload window and the 30 second pauses. A last use is a whole second.
- The limit on the number of channels as a strict bound: a freeze file ends the queue before it is looked at.
- The size of a claim in the database comes from the claim as it is; how it is read from the stream is not modelled.
- The number of removed rows that `updateRemoteDB` reports after a failed removal.
- The search for the claim of a transferred row has no effect on anything modelled.
- Names are sequences of runes; invalid UTF-8 is not modelled.
- A channel that is deleted on YouTube is one without videos to the worker pool.
- `processVideo` itself, and the texts of its errors: an error is known by the lists it is found in. That the daemon's `str` error sleeps before a retry has no effect.
- A transaction without outputs, on which `abandonSupports` would panic, and the paging of the support list.
- `transferVideos` and `transferChannel`: the first stops at the first video without a stream, so its completeness is not decided by the code.
- The unban timers as goroutines: `IpPool.Pool.Unban` is the end of any of them, at any moment. The end of all timers when the sync stops.
- The waiting of `GetIP` for an address to cool down. A client of `Downloads` or `YtDownload` is alone with the pool, so it reads the address it has leased.
- The refresh of the pool runs without the lock in the source; the model takes it as one step.
- Float rounding: amounts are exact, and two-decimal printing may round a tie either way. Splitting outputs is a success or a failure.
- The contents of the large tag and channel tables: they are parameters. That no replacement is itself to be replaced is a condition of the theorems, and so it is in the tables.
- `detectSlowDownload`, the progress bar, archives, `ffprobe`, language detection and the command line: they hand nothing to the parts above but the outcome of a call or the value of a flag.
