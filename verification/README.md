# Pagebin: a model of the storage protocol and of the algebra around it

Pagebin keeps two stores in step without a shared transaction: SQLite rows, and a directory tree with
`tmp/` for staging and `sites/{slug}` for content. This project models that protocol and the pure and
stateful code it rests on, and proves what the service relies on.

## How it is built

**Values.** `Strings`, `Names`, `Trees`, `Archives`, `NewSites`, `SiteSettings` and `Client` model paths,
directory trees (a map from path to entry), staging, ZIP extraction and packing, request validation and the
Python client's walk. `Sampling`, `Tokens` and `ViewerTokens` model slug sampling and expiring payloads.

**The protocol.** `Machine` is a transition system over rows, `sites`, `tmp`, the holder of the mutation
lock, and one program counter with one ownership record per job. Every system call that another job or a
crash can fall between is one step. `Invariants` states what every step keeps and how each step amounts to
an operation of a store that holds row and content together; `Protocol` carries that to every run from the
empty store, with any interleaving, faults, crashes and boots. `Safety`, `Linearization`, `Progress`,
`Generations` and `Expiries` draw the consequences, and `Scenarios` exhibits runs. `Runs` holds the induction
over runs.

**The code.** `Stores`, `Contents`, `Calls`, `Publishing`, `Replacing`, `Deleting`, `Updating`, `Downloads`
and `Booting` are the same operations as imperative methods over a mutable `Store` and the `Content` record,
in the order of the source. A store carries a schedule of what the other jobs do; before every system call
any number of its events may happen, and while a job waits for the lock they must. `Steps` says where each
call leads in `Machine`.

**Histories.** A `Histories.History` is the run that led to the store's state, as a ghost: everything that
happened before a call, everything since, the rest of the others' schedule, and the moments at which the job
took the lock, began to clean up and was done. `Store.Valid()` says that this run is a run of `Machine` from
the empty store, that while the call runs only jobs start and make calls (no crash, and no boot but in the
history of a boot), that those of them which are not the job's own are the schedule in order, that the lock was
first held at its mark, and that the counts of failed calls and the drawn names are those of the run. The
contracts of the top-level methods are about these moments: `Reached(history.locked.value)` is the state in
which this very call took the lock, and of a call whose history has no such moment `Stores.KeptOut` says that
it never held the lock and that none of its calls changed a row, a site, or anything another job relies on.

`Limiters` and `SessionStore` are classes that keep a ghost log which forgets nothing; `Admission` is a state
machine of two semaphores.

## What can go wrong in the model

Every system call may fail. A failed commit, `update_site` or `delete_site` leaves open whether it was
applied; a failed `replace_site` changes nothing. Recursive removal may stop part way and leave any part of
the tree; a failed write may leave anything in staging. A directory can be renamed onto nothing or onto an
empty directory, as in the `rename()` page of the System Interfaces volume of POSIX.1-2017. The restoring
renames inside `swap_into` and `swap_back` succeed. A crash is process exit. One assumption is made about
chance: no staging name is created while a replacement that has swapped its content in under that name awaits
the writing of its row (`Invariants.FreshName`). Salts are assumed distinct only where `Generations` says so.

## What the proofs found

- Exclusive creation does not by itself isolate staging. Between the swap of a replacement and the writing
  of its row the staging name is free, so another job that drew the same name could create it, and a
  withdrawal would rename content onto that job's directory. That window is the only gap:
  `Safety.RunsIsolateExactlyOutsideTheWindow` shows that staging is isolated throughout a run exactly when no
  name is drawn inside it, and `Scenarios.TwoJobsShareStaging` is a run on the other side.
- A crash between the two renames of a swap costs the site: boot finds a row without a directory and drops
  it. A crash after the second rename and before the row is written leaves the old row on the new content.
  `Safety.RecoveryKeepsEverySite` says that nothing else is ever lost, and `Scenarios.CrashInSwapLosesSite` is
  a run that loses a site.
- A fault in the final cleanup turns a completed publication or replacement into an error; the contracts of
  `Publishing.Create` and `Replacing.ReplaceSite` carry that case as `Untidy`, and
  `Scenarios.UntidyPublicationIsPublished` is a run that reaches it.
- `swap_back` is the inverse of `swap_into` exactly when nothing stood at the parked name: an empty leftover
  there is consumed. `Safety.SwapBackUndoesSwap` is that equivalence, and `Scenarios.SomeSwapCannotBeUndone` a
  run that reaches the failing side.
- Without any failing call a replacement of an existing site still reports an error exactly when something
  other than an empty directory stands at its parked name as it takes the lock (`Machine.Obstructed`, in the
  contract of `Replacing.ReplaceSite`). `Scenarios.LeftoverRefusesReplacement` is a run that leaves such a
  thing and is then refused.
- The comments at `src/sites.rs:199` and `src/sites/publish.rs:35` speak of cleanup without recursion; the
  code removes directories recursively (`src/sites/delete.rs:59`, `src/sites/content.rs:195`), and the model
  follows the code.
- The sweep does not look at the expiry again after its snapshot. What a deletion finds in place when it takes
  the lock is still due exactly unless the last publication or save that has written its expiry since then wrote
  a later one or none (`Expiries.DueUnlessWrittenLater`, for each deletion in the contract of `Booting.Sweep`);
  replacements keep the expiry and make no difference. `Scenarios.ExtendedSiteIsStillSwept` and
  `Scenarios.RepublishedSiteIsStillSwept` are runs in which a site that is no longer due is deleted.
- A file named only by its extension, such as `.html`, is HTML for the server and not for the client, which
  refuses it as hidden; `Client.HtmlTestsAgree` shows that this is the only difference.

## Model

| member | source | states |
|---|---|---|
| `Names.ComponentsClauseIsImplied` | src/sites/validate.rs:194-207 | the platform clause of `SitePath::parse` rejects nothing that the textual clauses accept on Unix |
| `Names.ParkedNamesAreApart` | src/sites/content.rs:145 | a parked `.old` name is never a slug, never another staging name, and identifies the staging name it came from |
| `Trees.MkdirAllMakesPrefixes` | src/sites/content.rs:80-88 | recursive directory creation succeeds exactly when no path above is a file, and then adds exactly the missing directories |
| `Trees.WriteOneAdds` | src/sites/content.rs:78-98 | one file is written exactly when it neither replaces an entry nor lies below a file, and nothing else changes |
| `Trees.WriteAllCorrect` | src/sites/content.rs:75-100 | staging succeeds exactly for prefix-free names, and the tree holds exactly the files and the directories leading to them |
| `Trees.StagingIsExact` | src/sites/content.rs:75-100 | the staged tree flattens to exactly the input, and any order of the same files stages the same tree |
| `Archives.StripSharedDirectory` | src/sites/archive.rs:91-107 | the in-place loop computes the stripped names |
| `Archives.Extract` | src/sites/archive.rs:17-62 | the extraction loop computes the specified result, first error included |
| `Archives.ExtractionIsExact` | src/sites/archive.rs:17-62 | extraction accepts exactly sound archives of at most 10,000 members within the cap, and returns their files in order |
| `Archives.StripsExactlySharedDirectory` | src/sites/archive.rs:91-107 | stripping fires exactly when all files lie strictly below one directory |
| `Archives.StrippedName` | src/sites/archive.rs:100-105 | stripping removes exactly the first segment and keeps bytes and validity |
| `Archives.StrippingKeepsFiles` | src/sites/archive.rs:91-107 | stripping keeps order, bytes, validity and distinctness of names |
| `Archives.ExtractionIsClosed` | src/sites/archive.rs:17-62 | every accepted archive yields at most 10,000 valid names within the byte cap |
| `Archives.Pack` | src/sites/archive.rs:71-88 | the explicit stack terminates and lists every regular file under its root-relative name exactly once, skipping symlinks |
| `Archives.ArchiveRoundTrip` | src/sites/archive.rs:17-107 | pack then extract gives the same files back exactly when the files do not share one directory |
| `Archives.FlatEntryRoundTrip` | src/sites/new_site.rs:274-296 | a top-level entry file makes the round trip unconditional |
| `NewSites.Collect` | src/sites/new_site.rs:236-256 | the validating loop computes the checked byte sum or its first error |
| `NewSites.CollectedIsExact` | src/sites/new_site.rs:236-256 | it accepts exactly valid, distinct names whose sizes fit an `i64`, and returns their sum |
| `NewSites.Build` | src/sites/new_site.rs:213-271 | `build` computes the specified result, clause by clause |
| `NewSites.BuildIsExact` | src/sites/new_site.rs:213-271 | `build` accepts exactly the acceptable requests and returns a complete site with a top-level entry |
| `NewSites.EntrySelectionIsExact` | src/sites/new_site.rs:274-296 | the entry is the named top-level file, else `index.html`, else the only top-level HTML file |
| `NewSites.SoleTopLevelHtml` | src/sites/new_site.rs:281-294 | automatic selection without an index succeeds exactly for one top-level HTML file |
| `NewSites.ExtractedNamesAreAccepted` | src/sites/new_site.rs:241-247 | a name that extraction returned is never what `build` objects to |
| `NewSites.BuiltSiteRoundTrip` | src/sites/archive.rs:71-88 | the archive of any accepted and staged site is accepted again with the same files, entry, size and tree |
| `Client.SlugChecksAgree` | skills/pagebin/scripts/publish.py:43-48 | client and server accept exactly the same slugs |
| `Client.Walk` | skills/pagebin/scripts/publish.py:65-100 | the client's stack walk accepts exactly safe artifacts within its budgets and reads every file once |
| `Client.Content` | skills/pagebin/scripts/publish.py:65-110 | the client accepts exactly the folders that are safe, within budget and have an entry, and the single pages that are named HTML, within budget, UTF-8 and not blank, from places without symlinks or credential directories above; it returns every file, or the page with its bytes |
| `Client.SafePathIsValid` | skills/pagebin/scripts/publish.py:51-62 | every path the client calls safe is a valid site path for the server |
| `Client.HtmlTestsAgree` | src/sites/validate.rs:177-183 | for every name the client's suffix test and `is_html` agree, except for a name that is only the extension, which is HTML for the server alone |
| `Client.ServerAcceptsClientArtifacts` | skills/pagebin/scripts/publish.py:65-110 | every folder the client accepts is accepted by the server with unchanged names and bytes |
| `Client.ServerAcceptsClientPages` | skills/pagebin/scripts/publish.py:98-104 | every page the client accepts is accepted by the server and becomes `index.html` with the same bytes |
| `Sampling.SampleIndex` | src/sites/validate.rs:126-141 | the loop returns the residue of the first draw at or above the threshold, within 64 draws |
| `Sampling.AcceptedValuesAreUniform` | src/sites/validate.rs:131-139 | for every bound each index has exactly (2^64 - threshold) / bound accepted values |
| `Limiters.PruningTruncated` | src/auth/limiter.rs:46-51 | pruning a truncated history equals truncating the pruned log |
| `Limiters.RecordingAgrees` | src/auth/limiter.rs:58-71 | dropping the oldest of five and appending keeps the table in agreement with the log |
| `Limiters.Limiter.Complete` | src/auth/limiter.rs:43-73 | the delay depends on all logged failures inside the window, and only a full table refuses a new address |
| `Tokens.HexEncode` | src/auth/tokens.rs:43-52 | the encoding loop yields canonical hexadecimal that decodes to the bytes |
| `Tokens.ParsingInvertsPrinting` | src/auth/tokens.rs:100-137 | a payload parses to a token and expiry exactly when it is their printed form |
| `Tokens.ChallengeVerifiesExactly` | src/auth/tokens.rs:146-159 | a login challenge verifies exactly while its printed form is live for the submitted nonce |
| `Tokens.DomainsAreSeparate` | src/auth/viewer_tokens.rs:6-7 | no payload parses in two domains or for two slugs |
| `ViewerTokens.GrantVerifiesExactly` | src/auth/viewer_tokens.rs:74-91 | a grant verifies exactly when it is the printed payload of the slug and current salt, and live within seven days |
| `ViewerTokens.GrantsBindGenerations` | src/auth/viewer_tokens.rs:74-91 | a grant never verifies under two different salts |
| `ViewerTokens.GrantLifetime` | src/auth/viewer_tokens.rs:18-23 | an issued grant verifies from its issue for exactly seven days |
| `ViewerTokens.ViewerChallengeVerifiesExactly` | src/auth/viewer_tokens.rs:93-111 | an unlock challenge verifies exactly while its printed form is live for the submitted nonce and slug |
| `SessionStore.LiveIsCreatedAndSurviving` | src/auth/sessions.rs:61-139 | a session is live exactly when it was created and nothing since revoked it or sampled a later clock |
| `SessionStore.LiveSessionsAreNeverExtended` | src/auth/sessions.rs:61-139 | over any later operations a live session is still the same one exactly if none ended it, and until then its identifier is given to no other |
| `SessionStore.Sessions.LockAt` | src/auth/sessions.rs:66-73 | pruning keeps the store equal to the live sessions of the log, even when samples go backwards |
| `SessionStore.Sessions.CreateAt` | src/auth/sessions.rs:79-104 | creation adds one session below 1024, or refuses without displacing any |
| `SessionStore.Sessions.LogoutAt` | src/auth/sessions.rs:129-139 | a session is revoked exactly when it is live and the token matches |
| `Admission.AdmissionIsBounded` | src/auth/password.rs:189-213 | over every order of deciding, asking the limiter, returning, delivering and cancelling, at most 16 requests are admitted and 2 workers run, permits are conserved, and the limiter is asked once for each decided verification that is past it |
| `Admission.CancelledWorkIsAccounted` | src/auth/password.rs:196-203 | whatever happens between its calls, and whenever its caller goes, a verification that returns was accounted for exactly once, holds no worker, and no admission if the caller was gone |
| `Admission.AccountingIsFinal` | src/auth/password.rs:172-182 | a verification past the limiter is never accounted for again in any continuation |
| `Invariants.EffectIsWithinOwn` | src/sites/content.rs:50-200 | every call of every job touches only its own `tmp` names and, under the lock, its own slug |
| `Invariants.StepIsIsolated` | src/sites/content.rs:141-200 | no step changes another job, an unclaimed `tmp` name or another slug, and none changes rows or sites without the lock |
| `Invariants.ClaimsStayDisjoint` | src/sites/content.rs:50-69 | staging and parked names of live jobs stay pairwise disjoint |
| `Invariants.StepperKnows` | src/sites/publish.rs:110-133 | after each call the job knows what its next program counter needs: staged input, its own empty reservation, an installed or parked directory |
| `Invariants.StepRefinesAtomicStore` | src/sites/replace.rs:25-54 | every step leaves the row and content of every slug as they were or performs one atomic operation on one slug |
| `Protocol.OperationIsSound` | src/sites/publish.rs:110-133 | whatever a step writes is a valid row with whole content that it describes |
| `Protocol.AnotherEntryIsConsistent` | src/sites/settings.rs:133-143 | naming another existing top-level file keeps a row consistent with its directory |
| `Protocol.CrashDamage` | src/sites/content.rs:141-157 | a crash harms at most the one slug whose replacement is between its renames, and how |
| `Protocol.BootKeepsSites` | src/sites/sweep.rs:54-86 | no boot step changes a site that has both a row and content |
| `Protocol.NextKeepsInvariant` | src/sites/publish.rs:20-135 | every event of every interleaving keeps the invariant |
| `Protocol.RunKeepsInvariant` | src/sites/publish.rs:20-135 | the invariant holds after every run from the empty store |
| `Safety.ServedSitesAreWhole` | src/sites/replace.rs:25-54 | whenever the lock is free each row has one whole validated file set, which it describes unless a crash hit that swap |
| `Safety.StoredAccessIsReadable` | src/sites.rs:290-309 | every stored row decodes, to exactly the credential that was meant |
| `Safety.NothingStale` | src/sites/replace.rs:32-42 | only a crash between a swap and its row update leaves a row that does not describe its content |
| `Safety.ConsistentRowDescribesTree` | src/sites/settings.rs:133-143 | a consistent row's entry is a regular top-level file and its counts are those of any listing of the directory |
| `Safety.SavedColumns` | src/db.rs:184-211 | a save keeps counts and age, and applies access and expiry to the current row |
| `Safety.BuiltRequestsAreAdmissible` | src/sites/settings.rs:65-72 | what the builders accept is what the jobs require |
| `Safety.BootIsComplete` | src/sites/sweep.rs:54-86 | a boot that removes every name it lists, whatever partial or repeated removals it contains, leaves `tmp` empty and serves exactly the slugs both stores held, unchanged and whole |
| `Safety.RecoveryKeepsEverySite` | src/sites/sweep.rs:54-86 | after a crash at any point and any boot, crashing again or not, every site is what it was except the one in mid swap |
| `Safety.CrashHitsOneSite` | src/sites/replace.rs:12-22 | a crash changes at most one site of the whole store, the target of the replacement that holds the lock |
| `Scenarios.CrashInSwapLosesSite` | src/sites/content.rs:141-157 | a run of any ordinary request crashes between the renames, and its site is gone after any boots |
| `Safety.SwapBackUndoesSwap` | src/sites/content.rs:141-172 | a swap that is undone restores the whole store exactly when the parked name was unused |
| `Scenarios.SomeSwapCannotBeUndone` | src/sites/replace.rs:43-52 | a run of any ordinary request leaves an empty directory at a parked name, and the next replacement under the same staging name cannot be undone to the state before |
| `Scenarios.LeftoverRefusesReplacement` | src/sites/content.rs:141-157 | a run of any ordinary request leaves anything but an empty directory at a parked name, and the next replacement that draws the staging name is refused with no failing call and changes nothing |
| `Safety.IsolationBreaksOnlyInTheWindow` | src/sites/content.rs:50-69 | a new staging directory keeps the names of all live jobs disjoint exactly when no replacement that has swapped under its name awaits its row |
| `Safety.RunsIsolateExactlyOutsideTheWindow` | src/sites/content.rs:50-69 | staging is isolated throughout a run exactly when no name is drawn inside that window |
| `Scenarios.TwoJobsShareStaging` | src/sites/content.rs:163-172 | a run of any ordinary request in which only the last draw falls into the window: two live jobs own one name and one finds its empty directory holding the other's content |
| `Scenarios.UndisturbedPublicationSucceeds` | src/sites/publish.rs:20-135 | every accepted and stageable request is published by an undisturbed run, which changes exactly the new row and directory |
| `Scenarios.UntidyPublicationIsPublished` | src/sites/publish.rs:20-38 | in a run of any ordinary request only a call of the cleanup fails, and the site is published all the same |
| `Linearization.RunsAreLinearizable` | src/sites/replace.rs:25-54 | over every run each slug holds what an atomic store holds after the runs' operations in order |
| `Linearization.JobsOperateOnce` | src/sites/publish.rs:110-133 | over every run a job performs at most one operation from its start on |
| `Linearization.RunsAnswerRequests` | src/sites/replace.rs:25-54 | each operation of a run happens under the lock and is what its request asks for, files and columns included, against the atomic store of that moment |
| `Progress.EveryCallMakesProgress` | src/sites/publish.rs:44-86 | every call that gets through brings its job nearer to its end, retries included |
| `Progress.NobodyIsStuck` | src/sites/content.rs:163-172 | every job can make its next call unless another holds the lock |
| `Progress.CallsAreUsedUp` | src/sites/publish.rs:44-86 | over any run each call of a live job uses up one of a number fixed at its start |
| `Progress.LocksAreGivenBack` | src/sites/publish.rs:32-38 | in every run in which the holder makes that many calls the lock is given back |
| `Progress.LockCanBeReleased` | src/sites/publish.rs:32-38 | from every reachable state the holder can give the lock back by calls of its own alone |
| `Progress.WaitersGetTheLock` | src/sites/publish.rs:32 | from every reachable state a waiting job has the lock after a bounded number of calls of the holder alone |
| `Generations.SaltsAreCarriedOnce` | src/sites/settings.rs:95-117 | with fresh salts no two rows or pending requests ever share one |
| `Generations.GenerationsNeverReturn` | src/sites/settings.rs:95-117 | a password generation that a slug gave up protects no slug in any later state |
| `Generations.GrantsNeverRevive` | src/auth/viewer_tokens.rs:74-91 | no grant from before a new password, an opening or a deletion ever verifies again |
| `Generations.GrantsLast` | src/db.rs:238-257 | over any run that does not open, reset, delete or recreate the slug, replacements and kept passwords included, its credential stays |
| `Stores.Store.Interfere` | src/sites.rs:55-56 | whatever other jobs do, a job keeps its record, its `tmp` names and, under the lock, all rows and sites |
| `Stores.UnlockedCallsAreHarmless` | src/sites/publish.rs:20-29 | no call of a job that never held the lock changes a row, a site, or anything another job relies on |
| `Stores.Store.Acquire` | src/sites/publish.rs:32 | the lock is taken when the others' schedule frees it, at a moment the history marks; otherwise the job still waits and the schedule is over |
| `Stores.Store.Release` | src/sites/publish.rs:32-38 | when the lock is given back every served site is one whole file set and, unless stale, described by its row |
| `Stores.Store.RenameIntoSites` | src/sites/content.rs:130-132 | a rename onto nothing or an empty directory moves the whole tree, and changes nothing otherwise |
| `Stores.Store.CommitRow` | src/sites/publish.rs:127-132 | a commit writes the row, or fails with an open outcome |
| `Stores.Store.ReplaceRow` | src/db.rs:238-257 | the replacement statement writes its columns of an existing row or changes nothing |
| `Stores.Store.UpdateRow` | src/db.rs:184-211 | the settings statement writes an existing row, or fails with an open outcome |
| `Stores.Store.DeleteRow` | src/db.rs:214-220 | the deletion reports exactly whether there was a row, or fails with an open outcome |
| `Stores.Store.RemoveTmpTree` | src/sites/content.rs:191-198 | recursive removal, interrupted any number of times, ends with the directory gone or with an error |
| `Contents.Content.New` | src/sites/content.rs:50-69 | staging is created exclusively; the job ends without it only if a call failed or each of eight names was taken when tried |
| `Contents.StageAndLock` | src/sites/publish.rs:20-32 | everything before the lock: complete staging, or a job that has ended or still waits, has never held the lock and has cleaned up |
| `Contents.Content.Write` | src/sites/content.rs:75-100 | without faults exactly the prefix-free file sets are written |
| `Contents.Content.ReserveDestination` | src/sites/content.rs:106-116 | a destination is created and owned, or an existing one stays untouched |
| `Contents.Content.Install` | src/sites/content.rs:122-135 | the reservation becomes exactly the staged tree of the input, or nothing changes |
| `Contents.Content.SwapInto` | src/sites/content.rs:141-157 | the new content is served and the old parked, or the served directory is as it was |
| `Contents.Content.SwapBack` | src/sites/content.rs:163-172 | the parked directory is served again and the new content staged again |
| `Contents.Content.Discard` | src/sites/publish.rs:26-29 | a job that could not stage ends, and without a further fault its staging is gone |
| `Contents.Content.Cleanup` | src/sites/content.rs:183-200 | an unused reservation and owned staging are removed and nothing else is touched; it succeeds exactly if no call failed |
| `Publishing.TryPublish` | src/sites/publish.rs:92-135 | an attempt publishes, leaves everything alone, or is in doubt only after whole content was installed |
| `Publishing.PublishStaged` | src/sites/publish.rs:44-86 | bounded retries change nothing until one attempt succeeds; a requested slug is refused exactly when it is taken; without faults a generated one fails only after eight taken slugs |
| `Publishing.Create` | src/sites/publish.rs:20-38 | against the state in which the call took the lock: success adds exactly one row, column by column, and its content; a definite failure changes nothing; a failed commit leaves whole content; nothing that exists is adopted; without the lock nothing of anybody else's changes |
| `Replacing.RecordReplacement` | src/sites/replace.rs:33-42 | the row is updated after the swap or not at all, and the parked content stays |
| `Replacing.Swap` | src/sites/replace.rs:25-54 | the swap is recorded as a whole or undone as a whole |
| `Replacing.ReplaceSite` | src/sites/replace.rs:12-22 | against the state in which the call took the lock, replacement is all or nothing for every combination of faults; without faults it fails exactly if there is a row and, in that state, the parked name is obstructed; a failure that cleans up without faults leaves no staging; without the lock nothing of anybody else's changes |
| `Deleting.RemoveContent` | src/sites/delete.rs:50-62 | only the deleted slug's directory disappears or shrinks to a part of itself |
| `Deleting.DeleteSite` | src/sites/delete.rs:23-44 | against the state in which the call took the lock, the three outcomes and the error, exactly: no bytes go before the row is confirmed gone, and no other slug is touched |
| `Updating.CheckSettings` | src/sites/settings.rs:95-100 | the access change is checked against the current row, then the entry against the current content |
| `Updating.UpdateSite` | src/sites/settings.rs:85-127 | against the state in which the call took the lock, a save is reported only if it happened, column by column; without faults row and directory alone decide the outcome |
| `Downloads.ArchiveSite` | src/sites.rs:220-231 | a download changes nothing and lists exactly the content of the site in the state in which the call took the lock |
| `Downloads.DownloadsCanBeRepublished` | src/sites/archive.rs:17-107 | the archive of any site that its row describes extracts to the same names and bytes |
| `Booting.ClearSites` | src/sites/sweep.rs:67-78 | orphaned content is removed, and the slugs with content are collected exactly |
| `Booting.DropRows` | src/sites/sweep.rs:79-84 | exactly the rows without content are deleted |
| `Booting.Reconcile` | src/sites/sweep.rs:54-86 | no site with both parts is touched; a completed boot serves only whole sites; without faults the boot completes, `tmp` is empty and both stores hold exactly the common slugs |
| `Booting.Sweep` | src/sites/sweep.rs:32-51 | each slug expired at the snapshot has exactly one deletion, each deletion is of a new job, begins where the one before ended and reports its outcome against the state in which it took the lock, and the last one ends in the final store; the site it finds is due exactly unless its expiry was put off, and without faults it is gone |
| `Booting.SweepKeepsToDueSites` | src/sites/sweep.rs:32-51 | in every sequence of such deletions each one keeps to due sites exactly unless the last write of its expiry since the snapshot put its site off |
| `Expiries.RowsExpireAsRequested` | src/db.rs:184-257 | over every run a row expires as the last publication or save that wrote its expiry asked, and replacements and kept expiries change nothing |
| `Expiries.DueUnlessWrittenLater` | src/sites/sweep.rs:32-51 | a site due at a moment and present later is still due exactly unless the last publication or save to write its expiry in between wrote a later one or none |
| `Scenarios.ExtendedSiteIsStillSwept` | src/sites/sweep.rs:32-51 | in a run a site is due at the snapshot, due at no time when its deletion starts, and deleted all the same |
| `Scenarios.RepublishedSiteIsStillSwept` | src/sites/sweep.rs:32-51 | in a run a site is due at the snapshot, deleted, published anew with no expiry, and deleted by the late deletion |

## Left out

- HTTP routing, multipart reading, templates, headers, themes and display labels: presentation and I/O.
- Static file serving, range and conditional requests: library behaviour.
- Argon2, cookie signing, PHC parsing and `secret.key`: a password is an opaque hash with a salt, random
  values are arbitrary inputs, and constant-time comparison is equality.
- ZIP encoding and compression: an archive is a sequence of members with name, kind, declared size and bytes.
- Power loss: a crash is process exit, as the source says of itself.
- Symlinked or replaced storage parents: the storage checks appear only as calls that may fail.
- Case-insensitive or normalising filesystems: names are compared exactly.
- The word lists of `generate_with`: a generated slug is any valid slug.
- Lock poisoning and clocks outside the range of their types, except as failing calls.
- Host and configuration parsing, database pooling and migrations other than the access constraint.
- Listing, searching and paging of sites: queries without effect on the protocol.
- The client's limit on the encoded upload and its HTTP side; decoding UTF-8 is a parameter.
- Concurrent readers of `sites` while a job holds the lock: requests are not steps of the model.
- Stores.Store.Generate: never draws a name inside the window in which isolation fails;
  `Safety.RunsIsolateExactlyOutsideTheWindow` states the exact condition.
- Stores.Store.Acquire: gives up when the others' schedule ends while one of them holds the lock, because
  methods terminate here; such a call reports `Unfinished`, its job is still waiting, and by
  `Progress.WaitersGetTheLock` it can always get the lock.
- Contents.Content.SwapBack: its renames succeed, because the fault model excludes failing restoring renames.
- Booting.Sweep: the error branch for a row whose slug does not parse is not modelled, because
  `Booting.RowSlugsAreValid` proves that no such row is ever stored.
- Downloads.ArchiveSite: read errors while packing appear as one failing call, not at each file.
