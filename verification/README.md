# Expire Share, verified

A Dafny model of the file sharing service: files that disappear when they expire or when their
downloads are used up, kept in step between a MySQL table of rows and a folder tree of blobs; the
worker that sweeps expired files; the Redis rate limiter; the alias generator; quotas, paging and the
size parser. `dafny verify dfyconfig.toml` checks everything.

## How the model is laid out

**One operation at a time, imperatively.** `Storage.FileStorage`, `Repository.FileRepo`,
`Service.FileService` and `Worker.FileWorker` are classes with the fields and the call order of the
program. Every call into the database, the disk or bcrypt takes the fault it is to fail with, so each
contract covers every combination of failures; `ServiceLaws` composes the calls. `RateLimiting.Redis`
and `RateLimiting.RateLimiter` do the same for the limiter, `AliasGen.Gen`, `Sizes.ToBytes` and
`Pagination` for the loops of the libraries.

**All operations at once, as a transition system.** `Lifecycle` interleaves any number of uploads,
downloads, deletes and sweeps, call by call: each statement, each storage call and each Commit is one
step, and instead of succeeding it may fail. Writes of an open transaction are invisible until its
Commit. A row lock per alias is held from the INSERT, UPDATE, DELETE or `FOR UPDATE` until the
transaction ends; plain SELECTs take none and read the committed table. `LifecycleInvariant` and
`LifecycleSteps` prove one inductive invariant for every step, `LifecycleSafety` draws the safety
properties from it, `LifecycleSweeps`, `LifecycleDownloads` and `LifecycleQuota` those about whole runs, and
`LifecycleDeadlock` who can wait for whom. `LifecycleSolo` shows that each operation, run alone, gets through
the system; `LifecycleQuotaTight` and `LifecycleOverlap` build the runs in which limits are passed.

**The two together.** `LifecycleRefinement` proves that the classes refine the transition system: every call
of the service and every tick of the worker, whatever fails in it, has the effect on table and blobs of a
run of the system.

## Assumptions

- `NOW()` and the application clock are one clock, and it never goes backwards.
- A drawn alias names no row and no folder and is never drawn again. A failed upload may leave an
  orphan folder behind (`internal/infrastructure/storage/local/files.go:31-57`); this assumption is what
  keeps it out of later uploads. The methods of the classes do not rely on it.
- A failed Commit applies nothing. A storage Delete that fails inside a request leaves the folder
  intact in the transition system and in `LifecycleRefinement`; the classes also allow the folder to be
  gone. In a sweep it may be gone in all three.
- `1 <= max_downloads <= 10000`, as the upload handler enforces
  (`internal/delivery/handlers/api/upload/upload.go:152`), also for the configured default; file sizes are
  not negative.
- A Redis key exists while the clock is before its expiry. The limiter follows its specification exactly
  when it has an attempt to give (`RateLimiting.RefinesIffAttempts`); the bounds on what it lets through
  are for a window and a block of at least one second after truncation.
- bcrypt is a hash handed in and an arbitrary comparison `verify`; random words are an input stream;
  `cache & 63` and `cache >>= 6` on a non-negative word are `% 64` and `/ 64`.
- SQL returns the rows of an unchanged table in a fixed order; MySQL refuses a negative OFFSET.

## Where the code and its documentation differ

The model follows the code.

- The download limit (`README.md:7`) is exact when the decrements of a file do not overlap
  (`LifecycleDownloads.DownloadsAreConserved`). When they may, it holds for a limit of one and for no
  other: the SELECT of the counter takes no lock and the UPDATE writes an absolute value
  (`LifecycleOverlap.LimitHoldsIffOneOrOneAtATime`). There is then no bound at all: any number of downloads
  that read the counter at two succeed (`LifecycleOverlap.OverlapOverruns`). In the other direction the limit
  always holds: no file goes before its downloads are used up, unless it is deleted or expires
  (`LifecycleSafety.GoneMeansUsedUp`).
- The quota is checked outside the transaction. Cap and size limit hold over every run exactly when a user
  has one upload in flight at a time (`LifecycleQuotaTight.CapHoldsIffOneInFlight`,
  `LifecycleQuotaTight.LimitHoldsIffOneInFlight`). With k in flight a user can have up to k - 1 files more
  than the cap and k times the bytes the limit allows, and no more (`LifecycleQuota.QuotaOverRuns`), under
  every configuration (`LifecycleQuotaTight.QuotaIsTight`).
- A Commit that fails after a request's storage Delete succeeded leaves a live row without a blob
  (`LifecycleOverlap.FailedCommitLosesTheBlob`). Nothing else does
  (`LifecycleSafety.BlobIsLostExactlyByAFailedCommit`).
- `README.md:86` asks for the password header on delete; no password is looked at there. `README.md:215`
  lets admins pass password checks; a download looks at no roles.
- The size sum of the quota check wraps around in int64 and then passes any limit
  (`Access.QuotaExactly`). The reported limits are the enforced ones for exactly the role lists of
  `Access.ReportedIsEnforcedExactly`, which leaves out admins, and vips whose user limit is the larger one.
- Nothing keeps two workers from sweeping at once, and the SELECT of a sweep has no ORDER BY: two of them can
  wait for each other's rows. Requests alone, or with one sweep, never deadlock
  (`LifecycleDeadlock.NoDeadlockIffOneSweep`).
- A refused call restarts the key's time to live with the block duration, even where that ends sooner
  than the window would have; this is why the bounds of `RateLimitingBounds.AllowedInInterval` and
  `RateLimitingTight.AllowedAtMost` go by the shorter of the two.

## Model

| member | source | states |
|---|---|---|
| `LifecycleSafety.LiveRowHasItsBlob` | internal/services/files/upload.go:62-97 | In every reachable state of the interleaved system a committed live row whose removal is not about to commit has a blob, equal to the bytes uploaded under its alias, if and only if no Commit failed after a request's storage Delete |
| `LifecycleSafety.BlobIsLostExactlyByAFailedCommit` | internal/services/files/download.go:104-118 | Over every run such a row has its blob, with the uploaded bytes, if and only if no event of the run is a failure of the Commit after a request's storage Delete of that alias |
| `LifecycleOverlap.FailedCommitLosesTheBlob` | internal/services/files/delete.go:62-76 | The exception is reachable: a run that ends in a live, unlocked row without a blob |
| `LifecycleSafety.RemovedRowLeavesNoBlob` | internal/services/files/download.go:93-121 | Whatever the interleaving, once a committed row is gone its blob is gone, and one transaction removed it |
| `LifecycleSafety.RowIsTheUpload` | internal/services/files/upload.go:62-81 | In every reachable state a committed row has the name, size and owner of its upload, the hash that was handed in, and expires the asked time to live after its insertion; its counter is between one and the limit |
| `LifecycleSafety.CommitRecordsTheRequest` | internal/services/files/upload.go:62-99 | What the history holds of an upload is the request, hash and row of the process whose Commit it was, and its bytes are in the storage then |
| `LifecycleSafety.AnyCallMayFail` | internal/services/files/download.go:58-69 | Every call of every operation may fail at any time; that ends the operation, frees its locks and leaves table, blobs and all others alone |
| `LifecycleSafety.StorageIsExclusive` | internal/services/files/delete.go:50-73 | Mutual exclusion on storage: while a process writes or removes a folder no other process holds that alias |
| `LifecycleSafety.TouchingNeedsLock` | internal/infrastructure/mysql/files.go:238 | Who touches a folder holds the row lock of its alias; a sweep touches folders of expired rows only |
| `LifecycleSafety.BlobsChangeUnderTheLock` | internal/services/files/delete.go:50-73 | In every step a blob changes only under the row lock of its alias, by the process that holds it and is at a storage call of that alias |
| `LifecycleSafety.LocksEndWithTheirTransaction` | internal/services/files/upload.go:53-60 | Whatever fails, a finished operation leaves no lock and so no transaction behind |
| `LifecycleSafety.ServedDownloadIsRight` | internal/services/files/download.go:18-91 | A successful download hands out the uploaded bytes to a password the file accepts, and its counter was read before the file expired |
| `LifecycleSafety.RowDisappearsOnlyWhenAllowed` | internal/infrastructure/mysql/files.go:204-285 | A row disappears in a step if and only if it is a Commit removing it; the process holds its lock and is an owner's or admin's delete, a password-accepted download that read downloads_left = 1 and with which the limit is used up, both with a DELETE run while the row was live, or a sweep of an expired row. A live row is never swept |
| `LifecycleSafety.NoDownloadIsLost` | internal/infrastructure/mysql/files.go:171-202 | In every interleaving, with any failures, the downloads served and downloads_left are together at least the limit while the row exists |
| `LifecycleSafety.GoneMeansUsedUp` | internal/services/files/download.go:71-121 | Over every run a file whose row is gone had all its downloads served, unless some event of the run is the Commit of a delete or of a sweep that removed it |
| `LifecycleSafety.RemovalFindsItsRow` | internal/infrastructure/mysql/files.go:212-224 | The affected-rows check decides the winner: a committed removal finds its row present and never removed before |
| `LifecycleSafety.FailedOperationLeavesTheTable` | internal/services/files/delete.go:41-79 | Over every run an operation that ended with an error, or has not ended, changed the committed table in none of its steps |
| `LifecycleSweeps.SweepIsComplete` | internal/infrastructure/mysql/files.go:238-284 | In every interleaving a sweep ends its scan with a hundred rows, or with every row whose expires_at lies before its begin, and none else; when it commits, however much later, rows and blobs of the batch are gone and stay gone |
| `LifecycleSafety.HistoryIsTrue` | internal/services/files/download.go:83-121 | The history the invariant speaks of is the number of successful downloads and of committed removals in the run |
| `LifecycleSafety.RemovedAtMostOnceServedAtMostOnce` | internal/infrastructure/mysql/files.go:171-227 | Over every run each alias is removed by at most one committed transaction, and a file with max_downloads = 1 is downloaded at most once |
| `LifecycleSteps.StepKeepsInv` | internal/services/files/download.go:14-122 | Every statement, storage call, Commit, failure and tick of any operation keeps the invariant that ties locks, rows, blobs and histories together |
| `LifecycleSteps.RunKeepsInv` | internal/services/files/download.go:14-122 | So does every run, whatever the interleaving |
| `LifecycleSteps.FailKeeps` | internal/services/files/download.go:58-69 | A failure at any call, with the damage it may leave on disk, keeps the invariant |
| `LifecycleSteps.LastRowKeeps` | internal/infrastructure/mysql/files.go:204-227 | The last download's DELETE, behind an UPDATE that matched, keeps it |
| `LifecycleSteps.CommitSweepKeeps` | internal/services/worker/worker.go:77-80 | The Commit of a sweep keeps it |
| `LifecycleInvariant.ClaimsAreDisjoint` | internal/infrastructure/mysql/files.go:37-71 | No two processes have a claim on one alias, an upload that has only drawn it included |
| `LifecycleInvariant.StepKeeps` | internal/infrastructure/mysql/files.go:171-285 | The frame argument: a step that changes the store only under its own locks disturbs no other process and no other alias |
| `LifecycleDownloads.DownloadsAreConserved` | internal/infrastructure/mysql/files.go:171-202 | Over every run with any failures in which decrements of an alias do not overlap: successes plus downloads_left equal the limit while the row exists, the limit is never passed, and at the limit row and blob are gone |
| `LifecycleDownloads.BalanceKept` | internal/infrastructure/mysql/files.go:180-196 | The step form: what a decrement under way has read stays the limit less the successes |
| `LifecycleOverlap.OverlapOverruns` | internal/infrastructure/mysql/files.go:180-196 | For every limit m >= 2 and every c >= 1 a run with m - 1 + c successful downloads and never more than c decrements under way: c of them read the counter at two |
| `LifecycleOverlap.LimitHoldsIffOneOrOneAtATime` | internal/services/files/download.go:71-121 | A limit m is respected over all runs with at most k decrements of the alias under way if and only if m or k is one |
| `LifecycleOverlap.LimitHoldsInEveryInterleavingIffOne` | internal/services/files/download.go:71-121 | A limit m is respected in all interleavings if and only if m is one |
| `LifecycleQuota.QuotaOverRuns` | internal/services/files/access.go:23-41 | Over every run in which a user has at most k uploads, none as admin, between check and commit: committed plus pending files are at most the cap less one plus k, their bytes at most k times the larger limit less one |
| `LifecycleQuota.AdmissionKeepsQuota` | internal/services/files/upload.go:18-34 | Passing the check keeps these bounds although other uploads are in flight |
| `LifecycleQuota.CommitKeepsQuota` | internal/services/files/upload.go:94-99 | Committing only moves an upload from pending to committed |
| `LifecycleQuotaTight.QuotaIsTight` | internal/services/files/upload.go:18-99 | Both bounds are reached: for every cap, limit and k a run with at most k uploads in flight ends with the cap less one plus k committed files, k of them of any size below the limit |
| `LifecycleQuotaTight.CapHoldsIffOneInFlight` | internal/services/files/upload.go:18-99 | Under every configuration that admits a file the cap holds over all runs with at most k uploads in flight if and only if k is one |
| `LifecycleQuotaTight.LimitHoldsIffOneInFlight` | internal/services/files/access.go:32-38 | So does the size limit, where it leaves room for a byte |
| `QuotaUsage.AdmissionKeeps` | internal/services/files/access.go:28-38 | What the check compares is enough for the bounds: one more file that fits on top of the committed ones alone keeps committed and pending together within them |
| `LifecycleSolo.SoloUpload` | internal/services/files/upload.go:14-101 | From any state without locks an admitted upload runs through and leaves row, blob and nothing locked |
| `LifecycleSolo.SoloDownload` | internal/services/files/download.go:14-122 | A download of a downloadable file runs through: one use less, or row and blob gone |
| `LifecycleSolo.SoloDelete` | internal/services/files/delete.go:13-80 | A permitted delete runs through and removes row and blob |
| `LifecycleSolo.SoloSweep` | internal/services/worker/worker.go:36-89 | A sweep runs through with any full batch of expired rows, or with all of them, and removes exactly it with its blobs |
| `LifecycleRefinement.RunUpload` | internal/services/files/upload.go:14-101 | Every upload under a fresh alias, whatever fails in it, has the effect of a run of the interleaved system, orphan folders included |
| `LifecycleRefinement.RunDownload` | internal/services/files/download.go:14-122 | So has every download; it returns the uploaded bytes, and the run counts it as served exactly when it succeeds |
| `LifecycleRefinement.RunDelete` | internal/services/files/delete.go:13-80 | So has every delete, and the run counts a removal exactly when it succeeds |
| `LifecycleRefinement.RunTick` | internal/services/worker/worker.go:36-89 | So has every tick of the worker |
| `LifecycleRefinement.RunWait` | internal/infrastructure/mysql/files.go:77 | So has the passing of time |
| `LifecycleRefinement.StartsReachable` | internal/infrastructure/storage/local/files.go:16-23 | A service without rows and folders is the initial state of the system |
| `LifecycleRefinement.StaysReachable` | internal/services/files/upload.go:14-101 | Such runs follow one another, so every state the service and its worker get into is reachable in the interleaved system |
| `LifecycleDeadlock.CircleIsOfSweeps` | internal/infrastructure/mysql/files.go:238 | In every reachable state, processes that wait for each other's row locks in a circle are at least two sweeps, all of them still scanning |
| `LifecycleDeadlock.TwoSweepsLock` | internal/infrastructure/mysql/files.go:238 | Two sweeps that do is a reachable state |
| `LifecycleDeadlock.OnlyLocksHoldUp` | internal/infrastructure/mysql/files.go:196-212 | A request whose INSERT, UPDATE or DELETE would find what it needs is held up by a row lock and nothing else |
| `LifecycleDeadlock.NoDeadlockIffOneSweep` | internal/infrastructure/mysql/files.go:196-238 | With at most k sweeps scanning, and any number of requests, no reachable state has such a circle if and only if k is at most one |
| `Service.FileService.UploadFile` | internal/services/files/upload.go:14-101 | With every call free to fail: no transaction stays open; the table changes exactly on success, by a row with the name, size, limit, owner and time to live of the request, the time of the call, and the hash if there is a password; the bytes are then in its folder; no other folder changes, and none before quota, hashing and alias are right; what an error may leave there. Without faults quota, hashing and a taken alias decide, in this order |
| `Service.FileService.DownloadFile` | internal/services/files/download.go:14-122 | With every call free to fail: no transaction stays open; a handle stays open exactly on success; success needs a row with expires_at after now and, for a protected file, a non-empty password that matches, returns the first file of the folder and uses up one download, the last one taking row and folder; an error changes nothing but, in the named cases, the folder. Without faults the outcome, with the kind of error, is decided exactly |
| `Service.FileService.DeleteFile` | internal/services/files/delete.go:13-80 | Whatever fails, row and folder go only for the owner's id or the role admin and while expires_at is after now, together; no transaction stays open; the folder alone is lost only in the named cases. Without faults exactly such a request succeeds, another on a live file is forbidden, and on any other file not found; no other role makes a difference |
| `Service.FileService.GetFilesStat` | internal/services/files/get_stat.go:14-37 | Number and bytes of the user's rows, with the cap and the limit of vips for vips and admins, of users for all others |
| `ServiceLaws.UploadThenDownload` | internal/services/files/upload.go:38-70 | Without failing calls, what is uploaded at one time is downloaded at a later one exactly while less than the time to live has passed and, if a password was set, with a non-empty password that matches the hash handed in; the bytes come back |
| `ServiceLaws.DownloadTimes` | internal/services/files/download.go:71-121 | Of n downloads in a row exactly the first downloads_left succeed, and the last of these takes row and folder |
| `ServiceLaws.DeleteThenDownload` | internal/services/files/delete.go:50-79 | After a successful delete the file is not found, at any later time |
| `Service.FileService.ServeDownload` | internal/delivery/handlers/api/download/download.go:57-92 | The handler ends with as many open handles as it began with, however much the client reads, and sends a prefix of the file |
| `Storage.FileStorage.Upload` | internal/infrastructure/storage/local/files.go:25-58 | What every failure leaves in the folder, the failing cleanup after a failed copy included; no other folder changes |
| `Storage.FileStorage.Download` | internal/infrastructure/storage/local/files.go:60-95 | Returns the first file of the alias's folder in the order of a directory listing; a missing or empty folder is not found |
| `Storage.FirstFileIsUnique` | internal/infrastructure/storage/local/files.go:65-78 | There is only one such file |
| `Storage.NamesDiffer` | internal/infrastructure/storage/local/files.go:65 | The listing is ordered by the first character that differs, names before their extensions |
| `Storage.FileStorage.Delete` | internal/infrastructure/storage/local/files.go:97-110 | Idempotent: deleting a missing folder succeeds |
| `Repository.FileRepo.GetFileByAlias` | internal/infrastructure/mysql/files.go:73-96 | Finds live rows only |
| `Repository.FileRepo.GetFilesStatByUserID` | internal/infrastructure/mysql/files.go:153-169 | Count and size sum of all the user's rows, expired ones included, zero without rows |
| `Repository.FileRepo.AddFileTx` | internal/infrastructure/mysql/files.go:37-71 | Adds the row to the transaction only; a taken alias is an error of its own |
| `Repository.FileRepo.DecrementDownloadsByAliasTx` | internal/infrastructure/mysql/files.go:171-202 | One use less, in the transaction only, for a live row with uses left; errors change nothing |
| `Repository.FileRepo.DeleteFileTx` | internal/infrastructure/mysql/files.go:204-227 | Succeeds exactly when it removes a live row |
| `Repository.FileRepo.DeleteExpiredFilesTx` | internal/infrastructure/mysql/files.go:229-285 | Removes and returns, without repetition, as many rows expired before now as the limit allows |
| `Repository.FileRepo.Commit` | internal/services/files/upload.go:94-97 | Makes the transaction's table the committed one, or applies nothing |
| `Worker.FileWorker.Tick` | internal/services/worker/worker.go:36-89 | A committed tick leaves the table without a hundred rows whose expires_at lies before now, or without all of them, their folders gone with them and everything else in place; any other tick keeps the table and loses folders of such rows only; a tick without faults commits; it stops only when cancelled |
| `Worker.FileWorker.Start` | internal/services/worker/worker.go:23-90 | When no tick is cancelled, none finds a row expired that was not at the first, and a hundred times the fault-free ticks is at least the number of rows expired at the first, then whatever fails in the others exactly these rows and their folders are gone |
| `Worker.FileWorker.Loop` | internal/services/worker/worker.go:30-88 | The loop goes through the ticks at their times, all of them unless cancelled, and every fault-free one commits |
| `Worker.SweepsConverge` | internal/services/worker/worker.go:50-80 | With no new expiries, once ceil(n/100) ticks have committed, exactly the n expired rows and their blobs are gone, whatever ticks failed in between |
| `Worker.SweepsProgress` | internal/services/worker/worker.go:50-80 | Before that each committed tick has removed a hundred rows; live rows and their blobs are never touched |
| `Worker.RunProgress` | internal/infrastructure/mysql/files.go:229-285 | After any run of ticks the table lacks as many of the expired rows as its committed ticks can take, the store at least their blobs |
| `Worker.ProgressStep` | internal/infrastructure/storage/local/files.go:97-110 | A failed tick does not set the sweep back, since deleting a missing blob succeeds |
| `Access.PasswordNeeded` | internal/services/files/access.go:51-62 | A protected file opens to a matching non-empty password only, asks for one when it gets none and refuses any other; an open one opens to any |
| `Access.OwnersAndAdmins` | internal/services/files/access.go:15-21 | Exactly the owner and the role admin may manage a file; role lists that agree on admin get the same answer |
| `Access.UsageAddsUp` | internal/infrastructure/mysql/files.go:153-169 | The usage of a user is nothing on an empty table, and a further row adds one file and its size to its owner and to nobody else, live or not |
| `Access.QuotaExactly` | internal/services/files/access.go:23-41 | Who passes the check, and who fails it with which of its two errors, for every usage and file size, int64 wrap-around included |
| `Access.ReportedLimits` | internal/services/files/access.go:64-76 | The report is the usage, the cap, and the limit of vips for vips and admins, of users for all others |
| `Access.QuotaIsMonotone` | internal/services/files/access.go:23-41 | More roles or less usage never turn a pass into a refusal, short of overflow |
| `Access.ReportedIsEnforcedExactly` | internal/services/files/get_stat.go:30-36 | The reported limits are the enforced ones, for all usages and file sizes, if and only if the roles and limits are of the kinds listed |
| `FilesTable.SumSplit` | internal/infrastructure/mysql/files.go:157 | The size sum does not depend on the order of the rows |
| `RateLimiting.ScriptRefinesLog` | internal/infrastructure/redis/rate_limiter.go:22-40 | For every window and block, counter and time to live decide as the specification that looks at the key's log only, and go on representing it |
| `RateLimiting.RefinesIffAttempts` | internal/infrastructure/redis/rate_limiter.go:42-58 | The limiter decides over all runs as that specification if and only if it is configured with at least one attempt |
| `RateLimiting.NoAttemptsNoAccess` | internal/infrastructure/redis/rate_limiter.go:34-37 | Without an attempt it lets nobody through, whatever happened before |
| `RateLimiting.LimiterRefinesLog` | internal/infrastructure/redis/rate_limiter.go:22-69 | For every sequence of timed Allow and Reset calls on many keys each decision is that of replaying the key's own log |
| `RateLimiting.RateLimiter.Allow` | internal/infrastructure/redis/rate_limiter.go:42-58 | Run on any parameters, the commands in place have the script's effect and result and touch no other key; with an attempt to give, the decision is the specification's |
| `RateLimiting.RateLimiter.Reset` | internal/infrastructure/redis/rate_limiter.go:60-69 | Forgets the key and touches no other |
| `RateLimiting.TruncSeconds` | internal/infrastructure/redis/rate_limiter.go:49-50 | Durations reach the script in whole seconds, truncated toward zero |
| `RateLimiting.KeysTellIffNotNested` | internal/infrastructure/redis/rate_limiter.go:44 | Two limiters' keys tell all their fields and values apart if and only if neither field, with a colon after it, begins the other |
| `RateLimiting.KeysAreInjective` | internal/infrastructure/redis/rate_limiter.go:44 | Fields without a colon: different (field, value) pairs have different keys |
| `RateLimiting.ColonInFieldCollides` | internal/infrastructure/redis/rate_limiter.go:44 | With a colon two limiters can share a key |
| `RateLimitingBounds.AllowedInInterval` | internal/infrastructure/redis/rate_limiter.go:22-69 | At most max * (ceil(T / min(window, block)) + 1 + r) calls of a key are allowed in any interval of length T with r Resets of the key in it |
| `RateLimitingTight.AllowedAtMost` | internal/infrastructure/redis/rate_limiter.go:22-69 | With S = min(window, block), at most max * (floor((T - 1) / S) + 1) calls in any interval of length T >= 1, and max - 1 more where S does not divide T - 1; max more for each Reset in it |
| `RateLimitingTight.MostIsReached` | internal/infrastructure/redis/rate_limiter.go:22-40 | For all parameters and every T some log without Resets has exactly that many |
| `RateLimitingTight.CarriedIsLess` | internal/infrastructure/redis/rate_limiter.go:28-37 | A window that opened before the interval has at most max - 1 of its calls in it |
| `RateLimitingBounds.WindowNeverOverfull` | internal/infrastructure/redis/rate_limiter.go:28-37 | A window lets at most max calls through |
| `RateLimitingBounds.AllowedPerWindow` | internal/infrastructure/redis/rate_limiter.go:28-37 | In an interval every window opened in it, and the one open at its start, lets at most max through |
| `RateLimitingBounds.WindowsAreSpaced` | internal/infrastructure/redis/rate_limiter.go:30-37 | Windows open at least min(window, block) apart, but for one with each Reset |
| `RateLimitingBounds.BlockedUntil` | internal/infrastructure/redis/rate_limiter.go:34-37 | The call after a refusal is allowed if and only if the block since that refusal is over |
| `RateLimitingBounds.HastyRetriesNeverPass` | internal/infrastructure/redis/rate_limiter.go:34-37 | A refused caller who retries at gaps shorter than the block is not allowed until a Reset, for any number of retries |
| `AliasGen.Gen` | internal/lib/alias/alias.go:15-33 | Terminates on every word stream that holds n accepted chunks and returns the first n of them, of the ten low-to-high six-bit chunks of each word, spelled backwards |
| `AliasGen.Draw` | internal/lib/alias/alias.go:18-30 | The in-place loop writes each accepted chunk once, last letter first, and reads a new word every ten chunks |
| `AliasGen.RestIsStream` | internal/lib/alias/alias.go:18-30 | What the loop's cache, counter and unread words still hold is the rest of the chunk stream |
| `AliasGen.LetterIsTableEntry` | internal/lib/alias/alias.go:9 | Letters are those of the table, at its index |
| `AliasUniformity.AliasesAreEquallyLikely` | internal/lib/alias/alias.go:8-30 | No bias: for any two aliases a self-inverse, length-keeping map on word streams sends exactly the streams that give one to streams that give the other |
| `AliasUniformity.RenamingCommutes` | internal/lib/alias/alias.go:23-26 | Renaming the accepted chunks of a stream renames what is accepted, letter by letter |
| `AliasUniformity.SpellIsInjective` | internal/lib/alias/alias.go:23-26 | Distinct accepted prefixes give distinct aliases |
| `AliasUniformity.RetargetUndoesItself` | internal/lib/alias/alias.go:23-29 | The exchange of two aliases on chunk streams undoes itself |
| `AliasUniformity.StreamOfRepacked` | internal/lib/alias/alias.go:19-29 | Every chunk stream is that of some words with given top bits |
| `AliasUniformity.SameStreamSameWords` | internal/lib/alias/alias.go:19-29 | And of one such word sequence only |
| `Pagination.ScanPaginationArgs` | internal/delivery/util/util.go:31-44 | Without arguments page 1 and limit 10; a printed page from 1 up is kept, a printed limit kept up to 100 and cut to 100 beyond, all else defaulted |
| `Pagination.GetFilesByUserID` | internal/infrastructure/mysql/files.go:98-151 | The total of the user's live rows and the window of them at the int64 offset; without faults, when the offset fits, the rows from (page - 1) * limit on, limit of them or as many as there are; an error in reading comes with the rows read so far and the total, any other with nothing |
| `Pagination.ScanRows` | internal/infrastructure/mysql/files.go:128-150 | All rows in order, or an error with those before it exactly when reading a row, or ending the iteration, fails |
| `Pagination.ListedAreLive` | internal/infrastructure/mysql/files.go:103 | Listed are exactly the rows of the user that are live |
| `Pagination.ListedOnce` | internal/infrastructure/mysql/files.go:103 | And each of them once |
| `Pagination.PagesMakeUpTheList` | internal/infrastructure/mysql/files.go:114-116 | Pages 1 to ceil(total/limit) one after the other are the list, later pages are empty |
| `Pagination.OffsetIsExact` | internal/infrastructure/mysql/files.go:114 | The offset is right if and only if the product is in int64; a page up to a hundredth of int64 is safe |
| `Strconv.AtoiOfDecimal` | internal/lib/sizes/sizes.go:29 | Printed numbers parse back, with a sign or without, or fail when int64 cannot hold them |
| `Strconv.AtoiOfNothing` | internal/delivery/util/util.go:33-38 | Nothing, or a sign alone, is an error |
| `Strconv.DecimalDigits` | internal/lib/sizes/sizes.go:29 | Printed numbers are ASCII digits in base ten |
| `Strconv.AtoiNeedsDigits` | internal/delivery/util/util.go:33-38 | Anything but digits after an optional sign is an error |
| `Sizes.ToBytes` | internal/lib/sizes/sizes.go:12-40 | A printed number and "b", "kb", "mb", "gb" or "tb", in any case and with blanks around, is that number times 1, 1024, 1048576, 1073741824 or 1099511627776 whenever int64 holds it; accepted is exactly digits in range followed by a unit, up to case and outer blanks, with the product wrapped into int64 |
| `Sizes.SizesRoundTrip` | internal/lib/sizes/sizes.go:29-39 | A printed number with unit k is a size with that number and unit; the bytes are right if and only if the product is in int64 |
| `Sizes.SizeIsUnique` | internal/lib/sizes/sizes.go:17-34 | A text splits into number and unit in at most one way |
| `Sizes.SizeHasNonDigit` | internal/lib/sizes/sizes.go:17-27 | An all-digit text is never a size, although the scan takes its last digit for the unit |
| `Entities.Wrap64` | internal/services/files/access.go:32-36 | Two's-complement wrap-around: congruent modulo 2^64, in range, the identity in range |

## Left out

- HTTP routing, middleware, request parsing, gRPC clients, configuration, migrations, logging: I/O with little logic.
- The text of wrapped errors; errors the service passes on are told apart by kind only.
- SQL engine internals: gap locks, deadlocks and lock timeouts appear as calls that fail; TIMESTAMP rounding and time zones do not appear.
- The background rollback of `database/sql` when a context is cancelled: a cancelled call is a call that fails.
- Two queries of one listing at two instants: COUNT and page see the same table and time.
- `DownloadFile` and the other service methods: the clock stands still during one call; the transition system lets it move between any two calls.
- `Storage.FileStorage.Upload`: a cleanup that fails in a folder with files of an earlier upload may also leave only some of those; a fresh alias has none. The file name is the base name already; handle leaks inside storage calls are not modelled.
- `Worker.FileWorker.Start`: tick times are an input; the five-second pause after a failed begin only delays ticks.
- `RateLimiting.RateLimiter.Allow`: Redis errors are not modelled, they run no script.
- `RateLimiting.TruncSeconds`: rounding of `Duration.Seconds()` to a float, which matters for durations of many years only.
- `Sizes.ToBytes`: ASCII text; other digits and spaces of Unicode are not modelled.
- `ToFormattedString` and `TimeString`: decided by floating-point formatting.
- `LifecycleRefinement.RunDownload`: a storage Delete that fails with the folder gone is no run of the system, by the assumption above; the same holds of `LifecycleRefinement.RunDelete`.
- `LifecycleQuotaTight.CapHoldsIffOneInFlight`: short of int64 overflow of the size sum, which `Access.QuotaExactly` describes.
- User and role administration: flat calls to the auth service.
