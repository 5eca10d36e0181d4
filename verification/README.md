# A verified model of lxc-manager

lxc-manager is a small Proxmox panel. This project models its state machines in Dafny 4.11 and proves what they keep: the self-updater that swaps the panel's own `app/` tree, the reconciler of guests, schedules and scheduler jobs, the login throttle, backups and update runs with their history rows, guest tags as panel and host agent read them, and the upgrade of the SQLite schema.

Everything outside the process is chosen by the environment. GitHub, Proxmox, SSH, pip, SQLite and the filesystem appear as arbitrary results, with "it raised" among them, and every statement holds for all of them. Code that changes state is modelled by classes whose methods change fields statement by statement; each method is proved against a function or relation on values, and the main results are lemmas about those. `dafny verify dfyconfig.toml` checks the project.

## Modules

| file | content |
|---|---|
| `Wrappers.dfy`, `Text.dfy` | options and results; strip, split, join |
| `Numbers.dfy`, `Semver.dfy` | decimal numbers; version parsing and printing, canonical tags |
| `ReleaseSelection.dfy` | the highest version among GitHub's answers |
| `InstallRoot.dfy` | the install directory under one update: every filesystem call, every intermediate state |
| `UpdateTransaction.dfy`, `CrashSafety.dfy` | what one update guarantees at its end, and at every moment |
| `SelfUpdate.dfy` | the updater object: version guard, release cache, apply |
| `UpdateHistory.dfy` | whole lives of a panel: updates, failures, deaths, restarts |
| `ApplyTrail.dfy`, `ApplyLock.dfy` | threads that call apply at the same time, and the directory they work on |
| `Throttle.dfy` | the login throttle and its exact bound |
| `Tags.dfy` | guest tags, panel side and agent side |
| `BackupStatus.dfy`, `RunHistory.dfy`, `BackupLedger.dfy` | backup status per storage and its verdict; what history rows have in common; on-demand backups and their ledger |
| `Reconciler.dfy`, `JobStore.dfy` | what a sync achieves; how it and the schedule edits get there, and what holds when they break off |
| `UpdateRunner.dfy` | one update run and its row |
| `Migration.dfy` | opening a database that an earlier version left |

## What was found

Most of what the code promises holds as promised. These are the places where it does not, or where code and comments disagree; the code was modelled as it is, and each has its exact condition below, told from the state and the environment before the call.

- A failed update fails at the first call that raises (`UpdateTransaction.FirstFault`), and restores tree and requirements.txt exactly when `KeepsApp` and `KeepsRequirements` hold of that call and of what the handler meets. With a handler that raises nowhere that is `Restorable`: it is not restored when the rename of the new tree into place fails (`app` stays away), when dropping the backups after the commit fails (a mixture, or a broken tree), when backing up requirements.txt breaks half way, or when a stale requirements.txt.bak with other contents lies about: any failure then copies it over requirements.txt, even a failed download. A process that dies while pip runs leaves such a file.
- One of `app` and `app.bak` is complete at every moment, unless the cleanup after the commit breaks `app.bak` and the handler goes on to remove `app` (`CrashSafety.LosesBoth`); one failing call is enough for that. It also needs `app` to be there at the start: after a failed second rename only `app.bak` is left, and the next attempt clears it before anything else takes its place.
- Between its two renames an update has no `app`. A process that dies there cannot be started again, with the old tree intact in `app.bak`.
- The running version never goes back, whatever fails or dies. The version on disk can, because the guard compares a tag with the running version only: it goes back exactly when an admitted tag lies below the tree on disk and the new tree stays. That takes a process older than the tree on disk. One failed update whose tree the handler cannot remove, or a failed last cleanup, makes it so; with exit on success switched off no call has to fail.
- `run_backup_now` says it never leaves a row running (app/modules/backups/status.py:279), but lists the storages before its `try` and writes the result after it: if either raises, the row stays running and the guest pending. For a guest that is not in the database the insert of the row already fails, so the branch at app/modules/backups/status.py:231 is never reached with an enforced foreign key, and the guest stays pending.
- `set_schedule` commits before it reloads the jobs; if the reload cannot read the table, the edited guest alone keeps its old job until the next completed operation, which is the right one exactly if the edit asked for it.
- An interrupted rebuild of `backup_status` leaves its new table behind, and the database can then not be opened any more. That is the only state on the way at which dying matters. A rebuild that is refused over a row without its guest leaves the table behind too.
- The panel accepts tags with commas and blanks that the agent's tests refuse or read differently: the panel stores a cleaned form, but the agent reads the raw line from Proxmox. On `managed` the agent is the stricter one; both agree on everything for every raw line without commas and blanks, and in general exactly when `Tags.ManagedAgreesExactly` and `Tags.AppAgreesExactly` say.

## Model

| member | source | states |
|---|---|---|
| Text.StripCuts | app/core/proxmox.py:88 | stripping removes a blank prefix and a blank suffix and leaves no blank end |
| Text.StripPadded | app/core/proxmox.py:88 | and it undoes any padding of a stripped text |
| Text.SplitJoin | app/core/proxmox.py:87-88 | splitting undoes joining when no part contains the separator |
| Text.JoinSplit | app/core/proxmox.py:87-88 | joining undoes splitting |
| Semver.MatchTagMeaning | app/modules/selfupdate/service.py:30-49 | the tag matcher accepts exactly `v`, number, dot, number, dot, number, and returns the values of the three numbers |
| Numbers.ValueOfConcat | app/modules/selfupdate/service.py:42-49 | the value of a number counts its digits by their place |
| Numbers.PrintOfValue | app/modules/selfupdate/service.py:47-57 | a number without leading zeros is printed as it was read |
| Semver.BumpsAreNewer | app/modules/selfupdate/service.py:214 | raising major, minor or patch makes a newer version, whatever becomes of the numbers behind |
| Semver.LessIsTotalOrder | app/modules/selfupdate/service.py:214 | and the order of versions is strict and total |
| Semver.ParsePrint | app/modules/selfupdate/service.py:42-57 | parsing a printed version, with or without `v`, gives it back |
| Semver.ParseIgnoresDecoration | app/modules/selfupdate/service.py:43-45 | surrounding blanks and a missing `v` do not change what is parsed |
| Semver.TagForKeepsVersion | app/modules/selfupdate/service.py:52-57 | a tag exists exactly for parseable texts, means the same version (leading zeros included), and is its own tag |
| Semver.TagsSeparateVersions | app/modules/selfupdate/service.py:52-57 | two texts have the same tag exactly when they mean the same version |
| ReleaseSelection.AddSemver | app/modules/selfupdate/service.py:71-76 | appends the version of a parseable name with its printed form, ignores others |
| ReleaseSelection.LastIsHighest | app/modules/selfupdate/service.py:99-100 | the last entry of the sorted list is an entry of the list and the highest |
| ReleaseSelection.LatestFromGithub | app/modules/selfupdate/service.py:79-101 | returns the highest of all parseable names of both answers with its tag; nothing when there are none and the tag list answered; raises otherwise |
| ReleaseSelection.SelectedIsHighest | app/modules/selfupdate/service.py:79-101 | no parseable name of the tag list or of the latest release has a higher number than the selected version in the first place where they differ; the tag is its printed form with `v` |
| ReleaseSelection.SelectionIgnoresOrder | app/modules/selfupdate/service.py:82-84 | order, repetition and spelling of the names do not change the selection |
| SelfUpdate.AdmittedIsNewer | app/modules/selfupdate/service.py:206-215 | apply admits a tag exactly when enabled, both versions parse and the tag is strictly newer, under its canonical tag; a refusal names the first reason that applies |
| SelfUpdate.BumpsAreAdmitted | app/modules/selfupdate/service.py:206-215 | a higher major, minor or patch is admitted over its base, and neither the base over it nor a version over itself |
| SelfUpdate.OfferIsAdmitted | app/modules/selfupdate/service.py:146-155 | a consistent cached pair that is offered passes every version check of apply |
| SelfUpdate.OfferedExactly | app/modules/selfupdate/service.py:146-150 | a cached version is offered if and only if apply would admit it |
| SelfUpdate.Updater.constructor | app/modules/selfupdate/service.py:36-39 | no apply in progress, no error, empty cache |
| SelfUpdate.Updater.Remove | app/modules/selfupdate/service.py:235 | removing a tree passes through a partial tree and may stop there or before |
| SelfUpdate.Updater.Rename | app/modules/selfupdate/service.py:247-248 | a rename is atomic, and raises onto a target that exists |
| SelfUpdate.Updater.CopyTree | app/modules/selfupdate/service.py:242 | copying a tree passes through a partial target, and raises onto one that exists |
| SelfUpdate.Updater.Copy | app/modules/selfupdate/service.py:252-253 | copying a file truncates the target first and may raise before, during or after |
| SelfUpdate.Updater.PrepareTree | app/modules/selfupdate/service.py:232-242 | download, unpack and stage, call by call |
| SelfUpdate.Updater.SwapTrees | app/modules/selfupdate/service.py:244-248 | clears app.bak, moves app there, moves app.new in |
| SelfUpdate.Updater.InstallRequirements | app/modules/selfupdate/service.py:251-254 | backs up requirements.txt if there is one, replaces it, runs pip |
| SelfUpdate.Updater.DropBackups | app/modules/selfupdate/service.py:256-259 | drops app.bak and requirements.txt.bak |
| SelfUpdate.Updater.Try | app/modules/selfupdate/service.py:231-260 | the whole try block; the local flag `swapped` is set exactly when the failing call comes after the swap |
| SelfUpdate.Updater.Except | app/modules/selfupdate/service.py:261-272 | the handler: move app.bak back after a swap, copy requirements.txt.bak back, discard app.new |
| SelfUpdate.Updater.Apply | app/modules/selfupdate/service.py:203-280 | refused and busy calls change nothing; others run the transaction, record its error, raise the right one, and always reset the flag |
| SelfUpdate.Updater.RefreshCache | app/modules/selfupdate/service.py:104-120 | a successful look-up replaces time, version and tag together and clears the error; a failed one leaves all, its age included; the pair stays consistent |
| SelfUpdate.Updater.Status | app/modules/selfupdate/service.py:123-159 | refreshes when forced or older than a day; offers a tag exactly when a newer version is cached, and then one that apply admits |
| UpdateTransaction.InstalledIsAllNew | app/modules/selfupdate/service.py:231-260 | after a normal return tree and requirements are the new ones and no backup or staging tree is left, whatever lay there before |
| UpdateTransaction.RaisedBlamesAFault | app/modules/selfupdate/service.py:231-261 | it fails only because a call was made to raise, and not when none is |
| UpdateTransaction.FailsAtFirstFault | app/modules/selfupdate/service.py:231-260 | it fails at exactly the first call it makes that raises, told from the directory before the update: no rename or copy ever finds its target in the way |
| UpdateTransaction.EachCallCanFail | app/modules/selfupdate/service.py:231-260 | every call it makes on a directory can be the one that fails, and no other can |
| UpdateTransaction.RestoredExactly | app/modules/selfupdate/service.py:231-272 | for every directory with a complete tree and all faults, those of the handler included, a failed update of another version leaves tree and requirements both as they were if and only if KeepsApp and KeepsRequirements hold of the first failing call |
| UpdateTransaction.AppKeptExactly | app/modules/selfupdate/service.py:263-266 | the running tree alone is kept if and only if the failing call is none of the three after which it cannot be and the handler, where it is needed, moves it back |
| UpdateTransaction.RestoredByWholeHandler | app/modules/selfupdate/service.py:261-272 | with a handler that raises nowhere, the same by the failing call: Restorable |
| UpdateTransaction.NewStaysExactly | app/modules/selfupdate/service.py:261-272 | the new tree is in app after the call if and only if it succeeded, or the last cleanup failed, or a later failure met a handler that cannot remove it |
| UpdateTransaction.HandlerFailsAtUndoFault | app/modules/selfupdate/service.py:261-272 | the handler raises at exactly the first of its calls that raises, told from directory, failing call and faults |
| UpdateTransaction.NothingLeftOver | app/modules/selfupdate/service.py:261-275 | when none does, no requirements.txt.bak, no app.new and, after a swap, no app.bak is left; and whatever the handler does no extracted archive, unless the download failed |
| UpdateTransaction.HalfBackupTears | app/modules/selfupdate/service.py:251-269 | a backup of requirements.txt that breaks half way ends with the old tree over a torn file |
| UpdateTransaction.FailedMoveLeavesNoApp | app/modules/selfupdate/service.py:247-272 | a failing second rename leaves nothing in app |
| UpdateTransaction.StaleBackupReplaces | app/modules/selfupdate/service.py:268-269 | a failed download beside a stale backup replaces requirements.txt by it |
| UpdateTransaction.FailedCleanupMixes | app/modules/selfupdate/service.py:256-269 | when dropping requirements.txt.bak fails, the new tree stays over the old requirements |
| UpdateTransaction.RestorationCanFail | app/modules/selfupdate/service.py:231-272 | each of these happens on every complete directory when one call fails and no other |
| UpdateTransaction.InterruptedThenFailed | app/modules/selfupdate/service.py:251-269 | dying during pip and then failing any download puts the old requirements under the new tree |
| CrashSafety.AlwaysOneComplete | app/modules/selfupdate/service.py:233-275 | in every state, within calls and within the rollback, app or app.bak is a complete tree, if and only if the cleanup and the handler do not break both |
| CrashSafety.BrokenCleanupLosesBoth | app/modules/selfupdate/service.py:256-266 | if they do break both and the handler runs through, no complete tree is left in the end |
| CrashSafety.BothCanBeLost | app/modules/selfupdate/service.py:256-266 | which happens on every directory when only the removal of app.bak breaks half way |
| CrashSafety.OnlyOldOrNew | app/modules/selfupdate/service.py:233-275 | a complete tree found in app at any moment is the old or the new one, under any faults |
| CrashSafety.MomentWithoutApp | app/modules/selfupdate/service.py:244-248 | an update passes through a state without app if and only if it gets as far as moving app away |
| CrashSafety.SecondFailedMoveLosesAll | app/modules/selfupdate/service.py:244-248 | an update that starts without app, after a failed second rename, clears app.bak first: failing at the same call again leaves no tree at all |
| UpdateHistory.AdmittedIsTheGuard | app/modules/selfupdate/service.py:208-215 | the guard of the history is that of an updater with the printed running version |
| UpdateHistory.RunningNeverGoesBack | app/modules/selfupdate/service.py:208-215 | over every history of updates, failures, broken rollbacks, deaths at any state and restarts, the running version never decreases |
| UpdateHistory.DeathCanStopService | app/modules/selfupdate/service.py:244-248 | a process that dies in an update can be left unable to start, its tree intact in app.bak, if and only if the update gets as far as its swap |
| UpdateHistory.InstalledGrows | app/modules/selfupdate/service.py:261-280 | with exit on success and failures that keep the tree, both told before each event, the installed version never decreases, and has strictly increased exactly when some update succeeded |
| UpdateHistory.StepSettled | app/modules/selfupdate/service.py:206-280 | an event in which no process dies leaves the process and the tree on disk of one version if and only if it is such an event |
| UpdateHistory.GoesBackExactly | app/modules/selfupdate/service.py:206-272 | a request lowers the version on disk if and only if its admitted tag lies below the tree on disk and the new tree stays |
| UpdateHistory.CanGoBackExactly | app/modules/selfupdate/service.py:206-280 | for some behaviour of the calls, if and only if an admitted tag lies below the tree on disk |
| UpdateHistory.OnlyUpdatesGoBack | app/modules/selfupdate/service.py:206-280 | any event that lowers it is an update of a process older than the tree on disk, to a version between the two |
| UpdateHistory.DiskWentBack | app/modules/selfupdate/service.py:206-280 | over every history, a tree below v on disk that was not there before comes from an update to a version below v |
| UpdateHistory.StrandsExactly | app/modules/selfupdate/service.py:261-280 | a request leaves the process running over its newer tree if and only if the tree stays and the process does not exit |
| UpdateHistory.TwoRequestsGoBack | app/modules/selfupdate/service.py:206-280 | a higher and then a lower newer tag move the disk back if and only if the first strands its tree and the tree of the second stays |
| UpdateHistory.DiskCanGoBackWithoutExit | app/modules/selfupdate/service.py:171-173 | with exit on success switched off two successful requests do it |
| UpdateHistory.StrandedNewTree | app/modules/selfupdate/service.py:263-266 | when pip and then the removal of the new tree fail, the new tree stays in app |
| UpdateHistory.DiskCanGoBack | app/modules/selfupdate/service.py:214-215 | with exit on success, a failed update whose tree stays and then a successful one to a version in between do it |
| ApplyLock.MutualExclusion | app/modules/selfupdate/service.py:217-221 | in every reachable state the flag is set exactly when one thread is inside, and there is never a second |
| ApplyLock.SessionsNeverInterleave | app/modules/selfupdate/service.py:217-277 | file writes of different applies are never interleaved |
| ApplyLock.Serialisable | app/modules/selfupdate/service.py:217-277 | the directory is, at every moment of every interleaving, that of the finished updates applied one after another, or a state that the one in progress goes through from there; no update that took the flag is lost |
| ApplyTrail.ApplyTracks | app/modules/selfupdate/service.py:231-275 | the states an apply goes through begin with the directory it found and end with the one it leaves |
| ApplyLock.OnlyTheInsiderWrites | app/modules/selfupdate/service.py:206-221 | whoever changes the directory is the one thread inside; refused callers do not |
| ApplyLock.FlagAlwaysReleased | app/modules/selfupdate/service.py:273-277 | when all threads are outside, flag and lock are free |
| ApplyLock.BusyIsRefused | app/modules/selfupdate/service.py:217-219 | a caller that finds the flag set is refused and leaves everything as it was |
| ApplyLock.FreeGetsThrough | app/modules/selfupdate/service.py:217-277 | one that finds it free gets through, undisturbed, to the directory its update leads to, with flag and lock free again |
| Throttle.LoginThrottle.constructor | app/core/auth.py:23-25 | no failures |
| Throttle.LoginThrottle.LoginRateLimited | app/core/auth.py:206-210 | prunes the address's list and answers as counting the last 600 s of the complete log would |
| Throttle.LoginThrottle.RecordLoginFailure | app/core/auth.py:213-214 | appends the time for this address only |
| Throttle.LoginThrottle.ClearLoginFailures | app/core/auth.py:217-218 | forgets this address only |
| Throttle.LimitedExactly | app/core/auth.py:206-210 | an address is limited exactly when at least ten of its failures are less than 600 s old |
| Throttle.EventsAreLocal | app/core/auth.py:213-218 | a success ends any limit, and no event touches another address |
| Throttle.PruningIsInvisible | app/core/auth.py:206-218 | for every sequence of checks, failures and clears under a clock that does not run back, the pruned list decides every later check like the complete log |
| Throttle.AtMostTenPlusFlights | app/api/auth.py:14-20 | with at most k attempts of an address in flight, no 600 s without a successful login hold more than 10 + k - 1 recorded failures |
| Throttle.TenPlusFlightsIsReached | app/api/auth.py:14-20 | for every k there is a run that reaches the bound |
| Tags.ParsedIsCanonical | app/core/proxmox.py:80-88 | parsed tags are non-empty, stripped, free of `;` and `,`, and made of characters of the text |
| Tags.ParseOfJoin | app/core/proxmox.py:87-88 | parsing the joined form of a canonical list gives the list |
| Tags.ParseIsIdempotent | app/core/proxmox.py:175-176 | the stored form parses to what the raw tags parsed to, and is stored unchanged |
| Tags.PanelApp | app/core/proxmox.py:140-144 | the loop picks the application of the first tag that has one |
| Tags.AgentApp | agent/lxc-manager-agent.sh:35-46 | the agent's loop picks the application of the first of its fields that has one, from the panel's map |
| Tags.AgentReadsOneLine | agent/lxc-manager-agent.sh:36 | what follows the first line of the tags is not read |
| Tags.SubstringIsMembership | agent/lxc-manager-agent.sh:31-32 | the substring test finds a word exactly when it is one of the `;`-separated fields |
| Tags.AgentAgrees | app/core/proxmox.py:175-176 | on the form that discovery stores, the agent's tests give what the panel's do |
| Tags.AgentImpliesPanel | agent/lxc-manager-agent.sh:31-32 | on raw tags the agent accepts no guest that the panel does not manage |
| Tags.AgentRefusesBlank | app/core/proxmox.py:84-88 | the converse fails: a blank before `managed` is enough |
| Tags.ManagedAgreesExactly | agent/lxc-manager-agent.sh:22-32 | on every raw line panel and agent agree on `managed` if and only if it is a field as it stands, or none when split at commas as well and stripped |
| Tags.AppAgreesExactly | agent/lxc-manager-agent.sh:34-46 | on every raw line they see the same application if and only if the agent, from the first field in which the panel finds one, finds the same |
| Tags.BlankHidesApp | agent/lxc-manager-agent.sh:34-46 | they differ when a blank hides the first application |
| Tags.PlainTagsAgree | agent/lxc-manager-agent.sh:22-46 | on every raw line without commas and blanks they agree on both |
| BackupStatus.LatestIsNewest | app/modules/backups/status.py:47-56 | the kept backup is the guest's newest, the first among equals, and there is none only without a backup |
| BackupStatus.LatestByVmid | app/modules/backups/status.py:47-56 | the loop's dictionary holds exactly that backup for every guest |
| BackupStatus.AskStorages | app/modules/backups/status.py:67-74 | keeps exactly the storages whose listing succeeded |
| BackupStatus.AnsweredExactly | app/modules/backups/status.py:67-74 | a storage has answered if and only if one of its listings succeeded, and then with the last of these |
| BackupStatus.SyncStorage | app/modules/backups/status.py:79-101 | upserts the row of every known guest for one storage |
| BackupStatus.SyncAll | app/modules/backups/status.py:59-101 | the table after the refresh is the specified one |
| BackupStatus.TableSyncIsExact | app/modules/backups/status.py:76-101 | exactly the rows of known guests on storages of which a listing succeeded are rewritten, each to the guest's newest backup there or to none; those of a storage that could not be listed stay |
| BackupStatus.SyncTwice | app/modules/backups/status.py:91-101 | a second refresh from the same answers only moves the time of the check |
| BackupStatus.GetEvaluated | app/modules/backups/status.py:140-161 | unchecked without rows, ok if all rows are good, failed if none is, warning otherwise |
| BackupStatus.VerdictFromListings | app/modules/backups/status.py:113-161 | from listings to verdict: ok if and only if on every storage the newest backup is at most 36 h old and not failed, failed if and only if on none |
| BackupLedger.NewestRunningIsNewest | app/modules/backups/status.py:207-211 | the query finds the guest's running row with the highest id, if any |
| BackupLedger.Backups.constructor | app/modules/backups/status.py:17 | no rows, nothing pending |
| BackupLedger.Backups.BeginRun | app/modules/backups/status.py:36-44 | pending first, then a running row, which needs a guest; still pending if the INSERT fails |
| BackupLedger.Backups.StartBackup | app/modules/backups/status.py:182-187 | an unknown guest or a failing SELECT changes nothing; a known guest is pending, with a new running row if the INSERT succeeds |
| BackupLedger.Backups.VzdumpAllStorages | app/core/proxmox.py:267-281 | raises exactly when the listing or a dump does, and otherwise reports every dump with its storage, in order |
| BackupLedger.Backups.RunChain | app/modules/backups/status.py:236-261 | all ok exactly when every dump and the verification are; verification is skipped after a failed dump |
| BackupLedger.Backups.ClaimRow | app/modules/backups/status.py:203-219 | takes over the newest running row or inserts one |
| BackupLedger.Backups.Try | app/modules/backups/status.py:229-281 | the status is ok exactly when the whole chain succeeded, the final sync and the SELECT after it included; the status table is refreshed exactly when the sync is reached and answered |
| BackupLedger.Backups.RunBackupNow | app/modules/backups/status.py:190-292 | the returned flag, the status in the row it works on and the success of the whole chain coincide, that row is closed and the guest not pending; and exactly what is left by an unknown guest, a listing, or any of the SQLite transactions that raises |
| BackupLedger.StepCounts | app/modules/backups/status.py:36-44 | one start or run changes the number of running rows as the saturating counter does |
| BackupLedger.StartedRow | app/modules/backups/status.py:36-44 | a start adds one running row of the guest under a new id and changes no other |
| BackupLedger.ExecutedRow | app/modules/backups/status.py:202-292 | a run works on the newest running row of the guest or on a new one; if it finishes, that row is ok exactly if all went well and failed otherwise, with its time and summary, and if not it stays as it was; no other row changes |
| BackupLedger.AllWellExactly | app/modules/backups/status.py:229-281 | all went well unless there is no storage, a dump or the verification fails, or a call raises |
| BackupLedger.LeavesNoneRunning | app/modules/backups/status.py:202-292 | a run leaves no row of its guest running if and only if it finishes and found at most one, or could not begin and found none |
| BackupLedger.LedgerHistory | app/modules/backups/status.py:202-292 | over every history terminal rows keep every field, rows have finished exactly when terminal, and running rows follow the saturating counter |
| RunHistory.SummaryText | app/modules/backups/status.py:283-290 | the summary is the title with vmid, an arrow and `ok` or `failed` |
| Reconciler.ReconcileIsExact | app/modules/update/scheduler.py:61-100 | guests are the discovered ones with one schedule each, survivors keep schedule and history, new guests get node default and are enabled exactly by `auto-update`, no row of a pruned guest is left, foreign keys hold |
| Reconciler.NewGuestSchedule | app/modules/update/scheduler.py:84-93 | a new guest is scheduled at the hour of its node, and enabled if and only if its raw tags parse to a list with `auto-update`; `managed` is not enough |
| Reconciler.EnabledByTag | app/modules/update/scheduler.py:88-89 | the same for every canonical list of tags |
| Reconciler.RefreshedIsExact | app/modules/update/scheduler.py:53-102 | after a sync each discovered guest has, for every storage of which a listing succeeded, the row of its newest backup there, and otherwise the row it had; no row of another guest is left |
| Reconciler.RegisteredExactly | app/modules/update/scheduler.py:64-93 | the upsert loop: last report wins, an existing schedule is kept, a missing one comes from the first report |
| Reconciler.SyncTwiceIsOnce | app/modules/update/scheduler.py:53-102 | a second sync that discovers the same changes nothing but times |
| JobStore.Panel.constructor | app/modules/update/scheduler.py:12 | no jobs |
| JobStore.Panel.Execute | app/core/db.py:97-106 | a statement works on the open transaction and is refused if it leaves a foreign key dangling |
| JobStore.Panel.UpsertGuests | app/modules/update/scheduler.py:64-93 | upserts all discovered guests and adds missing schedules in exactly UpsertStatements statements; none is refused |
| JobStore.UpsertsCounted | app/modules/update/scheduler.py:64-93 | which are two for each report and one for each guest that had no schedule |
| JobStore.Panel.PruneStaleGuest | app/modules/update/scheduler.py:36-50 | removes the job and then the rows, children first; no DELETE is refused, and the result is the pruned database |
| JobStore.ChildrenThenGuest | app/modules/update/scheduler.py:42-50 | once the five child tables are cleared, deleting the guest keeps all foreign keys and completes the pruning |
| JobStore.Panel.PruneAll | app/modules/update/scheduler.py:94-100 | prunes every stale guest in six statements each; when it breaks off only jobs of stale guests are missing |
| JobStore.Panel.ReloadJob | app/modules/update/scheduler.py:119-129 | replaces or removes one job; raises exactly for an enabled schedule with an invalid cron |
| JobStore.Panel.ReloadJobs | app/modules/update/scheduler.py:116-129 | the jobs of scheduled guests become the enabled schedules; it can raise only over a failing SELECT or an invalid stored cron |
| JobStore.Panel.Transaction | app/modules/update/scheduler.py:63-100 | upserts and prunes all in one transaction |
| JobStore.Panel.Commit | app/core/db.py:97-106 | the whole transaction is committed, in exactly CommitStatements statements, or it raises, the tables are as before and only jobs of stale guests are missing |
| JobStore.Panel.Publish | app/modules/update/scheduler.py:101-102 | after the commit: jobs, then backup status; what is left by a failing reload, and by a failing refresh |
| JobStore.Panel.SyncDiscovered | app/modules/update/scheduler.py:62-102 | a sync with its guests discovered is a step of the specification, and completes exactly if SQLite carries out its statements and the listings answer; otherwise exactly where it ends, statement by statement (SyncEnds) |
| JobStore.Panel.SyncGuestsAndSchedules | app/modules/update/scheduler.py:53-102 | the same, with a discovery that may raise, which changes nothing |
| JobStore.Panel.SetGuestSchedule | app/modules/update/service.py:125-140 | unknown guests and invalid crons change nothing; otherwise nothing changes before the COMMIT, the row alone without the reload, and with it the row and all jobs, and a next run exists exactly if enabled |
| JobStore.StepKeepsSound | app/modules/update/scheduler.py:36-129 | every step, complete or broken off, keeps foreign keys, valid crons and jobs within schedules; a completed one makes jobs and enabled schedules equal |
| JobStore.JobsFollowSchedules | app/modules/update/scheduler.py:116-129 | over every run, after each completed operation the guest jobs are exactly the enabled schedules with their crons |
| JobStore.CompletedSync | app/modules/update/scheduler.py:53-102 | a completed sync leaves the discovered guests, their enabled schedules as jobs, and the backup status of the listings |
| JobStore.BrokenSyncOnlyLosesJobs | app/modules/update/scheduler.py:36-50 | a sync that breaks off leaves a subset of the agreed jobs |
| JobStore.CommittedSyncAgrees | app/modules/update/scheduler.py:94-101 | one that breaks off between its COMMIT and its reload leaves schedules and jobs agreed if and only if no new guest is to be scheduled |
| JobStore.BrokenEditIsLocal | app/modules/update/service.py:132-139 | a schedule edit that breaks off leaves every other guest's job right |
| JobStore.CommittedEditAgrees | app/modules/update/service.py:132-139 | an edit committed but not reloaded agrees with the jobs if and only if the guest already had the job it asks for |
| UpdateRunner.Runner.constructor | app/modules/update/runner.py:15 | no rows, nothing pending |
| UpdateRunner.Runner.StartUpdate | app/modules/update/service.py:119-122 | marks a known guest pending, which shows its update as running |
| UpdateRunner.Runner.SetPhase | app/modules/update/runner.py:30-39 | stores phase and report so far in the run's row, or changes nothing |
| UpdateRunner.Runner.BackupPart | app/modules/update/runner.py:77-103 | a requested backup decides, an unrequested one does not; with its lines of the report |
| UpdateRunner.TailKeepsEnd | app/modules/update/runner.py:126 | of a long output the end is reported |
| UpdateRunner.Runner.PackagesPart | app/modules/update/runner.py:105-133 | unsupported guests pass, a supported VM without SSH target fails, otherwise apt decides; with its lines of the report |
| UpdateRunner.Runner.ApplicationPart | app/modules/update/runner.py:135-146 | attempted by mode, containers only; the result does not decide; with its lines of the report |
| UpdateRunner.Runner.HealthPart | app/modules/update/runner.py:148-155 | for containers with a known application the health check decides; with its line of the report |
| UpdateRunner.HealthyAnswers | app/modules/update/runner.py:152 | an answer is healthy if and only if the call succeeded and its output is, without blanks, neither empty nor 000 |
| UpdateRunner.UnhealthyRunFails | app/modules/update/runner.py:148-157 | with any other answer a container with a known application is not ok |
| UpdateRunner.ContainerRunOk | app/modules/update/runner.py:76-157 | when a run of a container is ok, written out by application type and down to the phases that must be stored |
| UpdateRunner.VmRunOk | app/modules/update/runner.py:76-157 | when one of a VM is ok: backup and packages, which take an SSH target |
| UpdateRunner.Runner.Parts | app/modules/update/runner.py:76-157 | the whole body raises exactly when something in it does, is ok exactly when RunOk, and adds Report to the lines |
| UpdateRunner.Runner.Work | app/modules/update/runner.py:76-160 | with its handler: ok exactly when RunOk, failed otherwise |
| UpdateRunner.Runner.Open | app/modules/update/runner.py:58-74 | adds the running row and stores the heading as the first report, if SQLite does |
| UpdateRunner.Runner.Close | app/modules/update/runner.py:162-170 | writes the terminal row with the final report |
| UpdateRunner.Runner.Record | app/modules/update/runner.py:52-170 | one row is added if the INSERT is carried out; it becomes terminal if the first phase and the final UPDATE are, with the whole report if nothing raised, and otherwise stays running with the last stored report; all stored reports are prefixes of the final one |
| UpdateRunner.Runner.RunGuest | app/modules/update/runner.py:42-172 | afterwards the guest is not pending; its one new row is terminal and ok exactly when RunOk, and stored reports are prefixes of the final one; or else the run raised, exactly if a statement outside the try failed, and the row, if there is one, stays running and is shown so |
| Migration.Store.CreateTables | app/core/db.py:6-94 | creates the missing tables |
| Migration.Store.RunMigrations | app/core/db.py:109-160 | adds the missing columns; a duplicate one is skipped |
| Migration.Store.MigrateBackupStatusPerStorage | app/core/db.py:120-149 | leaves the new shape alone; rebuilds the old one; fails over a left-over new table or a violated constraint |
| Migration.Store.Init | app/core/db.py:152-161 | all three in order, and every state that is committed on the way |
| Migration.RebuildSucceeds | app/core/db.py:120-149 | the rebuild of old backup rows cannot violate key or foreign key, and keeps every row under the configured storage |
| Migration.OpensUnlessHalfRebuilt | app/core/db.py:152-161 | opening an earlier database fails exactly when an interrupted rebuild left its table |
| Migration.OpensExactly | app/core/db.py:120-161 | with rows of missing guests allowed, opening fails exactly over a left-over new table or, in the rebuild, over such a row |
| Migration.OrphanBlocks | app/core/db.py:129-149 | a rebuild refused over such a row leaves its new table, so that removing the row does not help |
| Migration.UpgradeKeepsData | app/core/db.py:109-161 | from any earlier schema: current columns and keys, all old rows and values in order, defaults elsewhere, old backup rows under the configured storage, keys unique, other tables untouched |
| Migration.UpgradeKeepsReferences | app/core/db.py:71-80 | every backup row still belongs to a guest |
| Migration.SecondInitIsIdentity | app/core/db.py:152-161 | opening again changes nothing, whatever storage is configured |
| Migration.InterruptedRebuildBlocks | app/core/db.py:129-149 | every rebuild commits a state that no later start can open |
| Migration.DyingBlocksExactly | app/core/db.py:97-161 | of all states committed while an earlier database is opened, exactly that one cannot be opened; from every other the next start reaches the result of an uninterrupted one |
| Migration.DeathsDoNotMatter | app/core/db.py:152-161 | nor does any number of openings cut short elsewhere change the result |

## Left out

- The HTTP adapters, schemas, templates and scripts: serialisation and user interface.
- Password hashing, sessions, CSRF and bearer tokens: they rest on libraries, or are single checks.
- The contents of trees beyond their version, and of requirements.txt beyond its text: a tree is absent, partial or the complete tree of a version. Packages that pip has already changed when it fails are not modelled; the code does not restore them.
- `os._exit` between the reset of the flag and the end of the process: a second apply that enters in that moment is killed, which is a death at some state of its trail.
- `Path.exists` is taken to tell the truth and not to raise; only regular exceptions reach the handler, everything else is a death.
- Digits are ASCII digits, and the limit that Python puts on the length of integer texts is not modelled.
- Time is a number: seconds since an origin, real for the throttle, without time zones, daylight saving or formatting. The throttle's clock is assumed not to run back, and its three functions to be atomic.
- Cron grammar and trigger computation belong to APScheduler: a cron is a text with an arbitrary validity predicate under which the three defaults are valid. A guest's next run is whether it has a job.
- Proxmox calls, the OS probe, SSH and the agent's shell commands other than its tag tests: foreign calls. The agent reads tags from one line of configuration, so the application is compared on tags without line breaks; awk's cut at a second `: ` is not modelled.
- ORDER BY of the backup status rows: the verdict does not depend on it.
- Overlapping backup runs of one guest and concurrent operations on the job store: the code gives no guarantee there, so operations follow one another.
- BackupLedger.Backups.RunBackupNow: does not model the lines of the report after its title, because the recorded status is what other code reads; nor a guest pruned in mid-run, whose rows are gone, so that the final UPDATE matches none.
- UpdateRunner.Runner.RunGuest: does not state the report of a run in which something raised beyond what was stored before, because nothing depends on it; the lines taken over from a backup run and the text of an exception are arbitrary.
- The weekly security audit, the kernel query and the Telegram message: reading one body settles them.
