# Sulion: a verified model of the backend's state machines

Sulion runs coding agents in terminals (PTYs) and shows their transcripts, repositories and plans. Its backend keeps that
picture in database tables that many small statements update, in two caches that stand in for something slower, and in
strings that have to be read back exactly. This project models those parts in Dafny and proves what they are relied on for.

Tables are maps, sets or sequences held in the fields of a class; each SQL statement or transaction is one step. Every method
is proved against a function (or, where a query may return any of several rows, a relation) on the whole state, and the
theorems are about those functions over all inputs, all runs or all interleavings. Where statements, awaits or transactions
interleave, the component is a transition system whose actions are the points at which others can run.

| file | what it covers |
|---|---|
| `submitted_prompts.dfy` | matching typed prompts to transcript turns: the greedy pass, repeated, is a maximum matching |
| `git_status.dfy` | the status fingerprint identifies what it prints; reading `git status --porcelain=v1 -z` |
| `repo_state.dfy` | what the poller that skips unchanged writes shows over every run, and exactly when that is the last status |
| `model_switches.dfy` | the model-switch log and guard, first call by call, then statement by statement under row locks, where every schedule is serial |
| `coalesced_snapshot.dfy` | the single-flight snapshot: which snapshot a caller can be given |
| `signing_keys.dfy` | the signing-key cache: what is found, cooldown, lifetime, failures, dropped callers, and that nobody is stuck |
| `meta_repos.dfy` | groups of repositories over every run of requests |
| `plans.dfy` | the plan tree, attachments, event log and revisions over every run of requests |
| `session_activity.dfy` | correlation, activity and readiness of the agent in a terminal |
| `metrics.dfy` | saturating token totals and exact costs do not depend on order or grouping |
| `library.dfy` | slugs and the allocation of free ones |
| `file_content.dfy` | byte ranges against sections 14.1.2, 14.4 and 15.5.17 of RFC 9110 |
| `wrappers.dfy`, `text.dfy` | options, results, counting, and strings: decimals, joining, cutting, ordering |

`dafny verify dfyconfig.toml` checks everything.

## Where the code does less than it says

Each of these is a property the code or its comments suggest, that fails. The model keeps the code; the lemmas named give
runs or inputs that fail and the exact condition under which the property holds.

- The snapshot's comment promises one built after the caller arrived (`backend/src/api/app_state_routes.rs:28-37`). The code
  promises one whose build *completed* after it; a caller is sure of one that started later exactly when no build was
  running on arrival (`FreshIffNoBuildRunning`, `RunningBuildIsShared`). The repository's own unit test at lines 806-863
  expects the sharing.
- The poller shows the first status since the fingerprint last changed (`PollerRefinesReference`), not the last one. They
  differ in three ways, and `ShowsLastIff` says exactly when.
  - Renaming a repository, or deleting and re-adding it, clears its dirty rows and keeps its fingerprint
    (`backend/src/repo_lifecycle.rs:252-270`, `422-434`), so an unchanged dirty repository shows no dirty paths
    (`RenameHidesDirtyPaths`, `RevivalHidesDirtyPaths`; exactly when: `EveryRunServesLastStatus`, `RenameAgreesIffClean`,
    `ReviveAgreesIffClean`, `ForgottenRowsReturnIffChanged`).
  - The fingerprint leaves out the two counts, which the parser does not take from the map of paths: when a path was read
    twice, the same map comes with other counts (`RepeatedReading`, exactly when: `CountsImpliedIffUnrepeated`), and those
    of the first status stay (`FirstCountsAreShown`, `StaleCountsAreShown`).
  - Two statuses can have one fingerprint when paths contain newlines (next point), and then the second is not written
    at all (`SecondStatusIsSkipped`, `NewlinePathHidesStatus`).
- The fingerprint separates entries with newlines and does not escape them, so any two or more dirty paths print as one path
  that contains newlines (`NewlinePathsCollide`). A status is identified by its fingerprint exactly when it has at most one
  dirty path and that path does not read as an entry followed by a later path (`IdentifiedIff`).
- The porcelain parser knows that `R ` `RM` `C ` `CM` carry an original path; git also writes one for codes such as `RD` or
  ` R`. The parser then takes that path for a record. Usually it is one entry too many; when it begins with one of the four
  codes, as `CMakeLists.txt` does, the next record is skipped as its original, so a dirty path goes missing and the count
  looks right (`StrayLosesRecord`, `CMakeListsLosesRecord`). The map and both counts are right exactly when the originals
  read are the records lost (`RightIffBalanced`), that is, barring an original path that reads like one of the records,
  exactly when there is no such original (`RightIffNoStray`, `MimicIsRight`).
- Adopting a switch row keeps the guard only if it adopts the model now running or the last row still stands
  (`AdoptKeepsGuardIff`, over runs `GuardedThroughoutIffCareful`; a run that fails: `StaleAdoptionBreaksGuard`). With no
  metadata row there is nothing to lock, and two first sightings can lose a switch (`UnlockedObserveIsAtomicIff`,
  `FirstSightingsRace`).
- A closed plan can be opened again under a closed parent (`UpdateKeepsBottomUpIff`, `ReopeningIsAccepted`; a
  run from nothing: `ReopeningRun`).
- "An agent session lives in exactly one PTY" (`backend/src/correlate.rs:454`), but the three statements of a correlation are
  not one transaction: a correlation is safe exactly when no other one of its session is in flight to another PTY
  (`CorrelationIsSafeIffAlone`, `RacingCorrelationsShare`).
- A ready agent that was known only from its activity stops counting as ready once a prompt has been sent to it
  (`PromptKeepsReadinessIffCorrelated`).
- A byte range with a number of 2^64 or more is ignored, although RFC 9110 would cut a last position off at the end of the
  file (`HonouredIffFits`, `PastU64IsIgnored`). Several ranges in one header are answered 416 even when each could be satisfied
  (`SeveralRangesRefused`), where section 14.2 of RFC 9110 would let the server ignore the header.

## Model

| member | source | states |
|---|---|---|
| `SubmittedPrompts.EnoughPassesAreMaximum` | backend/src/submitted_prompts.rs:250-296 | over a fixed timeline, after as many passes as there were open prompts, no matching of open prompts to distinct qualifying free turns is larger than the one made, whatever the tie-breaks |
| `SubmittedPrompts.GreedyIsMaximum` | backend/src/submitted_prompts.rs:250-296 | passes repeated until idle leave a matching, and it is maximum |
| `SubmittedPrompts.LiveGreedyIsMaximum` | backend/src/submitted_prompts.rs:250-296 | the same when turns arrive between the passes, in order of start: settled, the matching is as large as any to all the turns that ever arrived |
| `SubmittedPrompts.ArrivalKeepsProgress` | backend/src/submitted_prompts.rs:271-280 | a match made before such a turn arrives has skipped nothing once it is there |
| `SubmittedPrompts.OutOfOrderTurnIsTooLate` | backend/src/submitted_prompts.rs:271-288 | one turn that arrives out of order can leave the settled matching short of the maximum |
| `SubmittedPrompts.TakerIsStuck` | backend/src/submitted_prompts.rs:271-280 | the exchange step: when a prompt left without candidates wanted a turn, the prompt that took it is left without candidates too |
| `SubmittedPrompts.StandinExists` | backend/src/submitted_prompts.rs:271-280 | every prompt of a competing matching has a stand-in among the prompts this run matched |
| `SubmittedPrompts.StableIsMaximum` | backend/src/submitted_prompts.rs:260-296 | any settled table reached by progress alone holds a maximum matching |
| `SubmittedPrompts.RunStabilises` | backend/src/submitted_prompts.rs:260-296 | a run of passes is settled within the number of open prompts |
| `SubmittedPrompts.PassIdleIffStable` | backend/src/submitted_prompts.rs:260-296 | a pass matches nothing if and only if no open prompt has an unclaimed qualifying turn; otherwise the open set shrinks |
| `SubmittedPrompts.PassExists` | backend/src/submitted_prompts.rs:271-288 | the two `DISTINCT ON` steps have an outcome in every state |
| `SubmittedPrompts.PassEffect` | backend/src/submitted_prompts.rs:260-296 | a pass changes only open prompts, each to a free qualifying turn with none earlier, and no two to the same turn |
| `SubmittedPrompts.LosersLostToEarlier` | backend/src/submitted_prompts.rs:271-296 | an open prompt that a pass leaves out although it has a candidate lost one of its earliest candidates to a prompt that was not submitted after it |
| `SubmittedPrompts.QualifiesIff` | backend/src/submitted_prompts.rs:271-280 | a turn qualifies exactly when it is of a session of the prompt's PTY, has the same words, and started no more than ten seconds before the prompt was sent |
| `SubmittedPrompts.SameNormalizedIffSameWords` | backend/src/submitted_prompts.rs:260-279 | trimming and collapsing blanks on both sides matches two texts if and only if they have the same words in the same order |
| `SubmittedPrompts.ProgressStep` | backend/src/submitted_prompts.rs:260-296 | no pass ever makes a matched prompt have skipped an earlier qualifying turn that is still free |
| `SubmittedPrompts.NoTurnIsHeldTwice` | backend/src/submitted_prompts.rs:193-308 | in every table reachable by record, delivery error, dismiss, reconcile (over changing timelines) and prune, no two rows hold one turn, and the two match columns are set together |
| `SubmittedPrompts.StepKeepsConsistent` | backend/src/submitted_prompts.rs:193-308 | each statement keeps that |
| `SubmittedPrompts.PruneFreesTurns` | backend/src/submitted_prompts.rs:298-308 | pruning unsettles a settled table if and only if it drops the holder of a turn some open prompt qualifies for |
| `SubmittedPrompts.PrunedIffOverAWeekOld` | backend/src/submitted_prompts.rs:298-308 | a row goes at a prune if and only if it was matched or dismissed more than a week ago |
| `SubmittedPrompts.DismissedOnce` | backend/src/submitted_prompts.rs:238-248 | dismissing again changes nothing, so that week counts from the first time |
| `SubmittedPrompts.RecordedIsUnmatched` | backend/src/submitted_prompts.rs:193-211 | what is recorded is open, listed as unmatched, and keeps text, PTY and time |
| `SubmittedPrompts.ListedLifecycle` | backend/src/submitted_prompts.rs:161-189 | how the state listed for a prompt moves under every statement: dismissal is final, errors fail unmatched prompts only, only matched and dismissed prompts are pruned |
| `SubmittedPrompts.PromptTable.Reconcile` | backend/src/submitted_prompts.rs:260-296 | the update is a pass for every outcome of the two queries, and the count returned is the number of prompts that left the open set |
| `SubmittedPrompts.PromptTable.Record` | backend/src/submitted_prompts.rs:193-211 | adds one open row under a new id |
| `SubmittedPrompts.PromptTable.MarkDeliveryError` | backend/src/submitted_prompts.rs:213-220 | sets the error of that row and nothing else |
| `SubmittedPrompts.PromptTable.Dismiss` | backend/src/submitted_prompts.rs:238-248 | answers true exactly when the row is of that PTY and not yet dismissed, and then dismisses it |
| `SubmittedPrompts.PromptTable.Prune` | backend/src/submitted_prompts.rs:298-308 | removes exactly the expired rows and counts them |
| `GitStatusModel.FingerprintIdentifies` | backend/src/repo_state.rs:462-486 | for newline-free statuses the fingerprints are equal if and only if branch, origin, head and every path with its code and line counts are equal |
| `GitStatusModel.EntryLineInjective` | backend/src/repo_state.rs:473-484 | an entry line determines its path, code and both counts, whatever characters the path has |
| `GitStatusModel.NewlinePathsCollide` | backend/src/repo_state.rs:473-485 | every status with two or more dirty paths has the fingerprint of another with one, whatever its headers |
| `GitStatusModel.IdentifiedIff` | backend/src/repo_state.rs:462-486 | among statuses with one-line headers, non-empty paths and two-character codes, one is the only one with its fingerprint if and only if it has at most one dirty path and that path does not split at a newline into an entry line and a later path |
| `GitStatusModel.JoinedPathLine` | backend/src/repo_state.rs:473-485 | the lines of any list of entries are together the line of one entry |
| `GitStatusModel.StatusFingerprint` | backend/src/repo_state.rs:462-486 | the loop prints exactly the content: header lines, then the entries in path order |
| `GitStatusModel.PorcelainRoundTrip` | backend/src/git.rs:124-158 | parsing what git prints for distinct paths recovers every path with its code, and both counts are the cardinalities the map implies |
| `GitStatusModel.ParseRecordPieces` | backend/src/git.rs:127-158 | what one printed record, read or already skipped, and its original do to the reading of whatever follows: read, passed over, or taking the next record with them |
| `GitStatusModel.ParsePrinted` | backend/src/git.rs:127-158 | whatever records git prints, the entries counted and stored are exactly those named record by record |
| `GitStatusModel.OriginalSkippedIff` | backend/src/git.rs:142-148 | the original path of a single record is passed over exactly after one of the four codes |
| `GitStatusModel.PorcelainCounts` | backend/src/git.rs:142-157 | for all records: both counts are those of the records, plus the original paths read as entries, minus the records lost |
| `GitStatusModel.RightIffBalanced` | backend/src/git.rs:127-158 | for all records with distinct paths: every path has its code, no other path appears and both counts are right if and only if the originals read as entries are exactly the records lost |
| `GitStatusModel.RightIffNoStray` | backend/src/git.rs:142-148 | unless an original path reads like one of the records, that is if and only if no record carries an original path under a code the parser does not expect one for |
| `GitStatusModel.StrayLosesRecord` | backend/src/git.rs:142-148 | such an original that begins with one of the four codes hides the next record while the count stays the number of records |
| `GitStatusModel.CMakeListsLosesRecord` | backend/src/git.rs:142-148 | a renamed and deleted `CMakeLists.txt` does that |
| `GitStatusModel.MimicIsRight` | backend/src/git.rs:142-148 | and one that reads like the record it hides leaves everything right, so the exception above is needed |
| `GitStatusModel.CountsImpliedIffUnrepeated` | backend/src/git.rs:150-157 | for all records: the number of changes is that of the paths stored if and only if no path was read twice, and then the untracked count is right too |
| `GitStatusModel.RepeatedReading` | backend/src/git.rs:142-157 | two lists of records git can print with one map and different counts |
| `GitStatusModel.TallyMap` | backend/src/git.rs:150-157 | the map has exactly the paths read, each with a code it was read with |
| `GitStatusModel.CodesHaveTwoCharacters` | backend/src/git.rs:127-158 | whatever the bytes, every stored code has two characters |
| `GitStatusModel.ParsePorcelain` | backend/src/git.rs:127-158 | the loop over the NUL-separated pieces computes the recursive reading the round trip is about |
| `RepoState.PollerRefinesReference` | backend/src/repo_state.rs:287-389 | over every run of statuses, failures, scans, upserts, renames and deletions, with nothing assumed of what git reports: every column and dirty row is that of the first status since the fingerprint last changed, the dirty rows gone if the repository was renamed or deleted after it, and the revision counts the changes |
| `RepoState.ShowsLastIff` | backend/src/repo_state.rs:296-312 | for newline-free statuses: every column but the counts is that of the last status; the counts are if and only if those of the first one are the same as signed 32-bit numbers; the dirty rows are if and only if none were forgotten or there are none; and all of it is what a poller that always rewrites shows if and only if both hold |
| `RepoState.EveryRunShowsLastStatus` | backend/src/repo_state.rs:287-389 | from empty tables, over every run of newline-free statuses whose counts their paths imply, all of it is the last status if and only if the repository was not renamed or deleted since the last change, or is clean |
| `RepoState.SameReference` | backend/src/repo_state.rs:296-312 | over every run of newline-free statuses, what changes by fingerprint is what changes by content |
| `RepoState.EveryRunServesLastStatus` | backend/src/repo_state.rs:392-433 | from empty tables, over every run of newline-free statuses, renames and revivals included: a reader of a present repository gets the number of its changes of content, and the paths and codes git last reported if and only if it was not renamed or deleted since the last change, or is clean |
| `RepoState.ServedIffPresent` | backend/src/repo_state.rs:392-400 | over every run a reader gets an answer exactly while the repository is known and present |
| `RepoState.AsI32Wraps` | backend/src/repo_state.rs:336-378 | what is stored of a count is its value modulo 2^32 in the signed range |
| `RepoState.LoadServes` | backend/src/repo_state.rs:392-433 | whatever git reported: the paths of the first status since the fingerprint changed, or none when they were forgotten, and each line count if and only if it fits the signed 32-bit column |
| `RepoState.SameContentSameView` | backend/src/repo_state.rs:314-386 | statuses with equal contents show the same in every column and row but the two counts |
| `RepoState.StatusRowAgrees` | backend/src/repo_state.rs:287-389 | one status, whatever it holds, skipped or written, leaves the row in agreement with the reference |
| `RepoState.RewriteShowsStatus` | backend/src/repo_state.rs:314-386 | the rewritten row and dirty rows show exactly the status |
| `RepoState.StepAgrees` | backend/src/repo_state.rs:113-170 | so do scans, upserts, failures, renames and deletions |
| `RepoState.RenameAgreesIffClean` | backend/src/repo_lifecycle.rs:246-291 | after a rename the dirty rows of the last status are shown if and only if it has none |
| `RepoState.ReviveAgreesIffClean` | backend/src/repo_lifecycle.rs:414-458 | the same after deleting and adding again |
| `RepoState.RenameHidesDirtyPaths` | backend/src/repo_lifecycle.rs:246-291 | from empty tables, for every dirty status: add, read it, rename, read it again, and no dirty path is served |
| `RepoState.RevivalHidesDirtyPaths` | backend/src/repo_lifecycle.rs:414-458 | the same for delete and add |
| `RepoState.SecondStatusIsSkipped` | backend/src/repo_state.rs:296-312 | from empty tables, of any two statuses with one fingerprint the first is shown and served |
| `RepoState.NewlinePathHidesStatus` | backend/src/repo_state.rs:473-485 | so every status with two or more dirty paths can be hidden behind one with a single path |
| `RepoState.FirstCountsAreShown` | backend/src/repo_state.rs:296-312 | and of two record lists read as one map the count of the first is shown |
| `RepoState.StaleCountsAreShown` | backend/src/repo_state.rs:296-312 | a run from empty tables, without any newline, that shows three changes where git last reported two |
| `RepoState.ForgottenRowsReturnIffChanged` | backend/src/repo_state.rs:296-312 | after dirty rows were forgotten, the next status shows them if and only if there are none to show or its fingerprint is new |
| `RepoState.LifecycleForgets` | backend/src/repo_lifecycle.rs:246-291 | rename, and delete with revival, both lead there: no dirty rows, old fingerprint |
| `RepoState.RepoStateManager.ReconcileRepoInner` | backend/src/repo_state.rs:287-389 | the statements, with the loop that inserts dirty rows, do what the model of one status says |
| `RepoState.RepoStateManager.SyncReposOnce` | backend/src/repo_state.rs:113-151 | marks the vanished repositories absent and inserts or revives the found ones, leaving all else |
| `RepoState.RepoStateManager.UpsertRepo` | backend/src/repo_state.rs:153-170 | the same for one repository |
| `RepoState.RepoStateManager.RenameRepoRuntimeRecords` | backend/src/repo_lifecycle.rs:246-291 | the row moves with its fingerprint, both names lose their dirty rows |
| `RepoState.RepoStateManager.MarkRepoDeletedRecords` | backend/src/repo_lifecycle.rs:414-458 | the row stays as absent with its fingerprint, its dirty rows go |
| `ModelSwitches.LogIsCollapsedInput` | backend/src/model_switches.rs:193-311 | over every interleaving of observations, answers and interrupts, the launch model followed by the log's target models is the observed sequence with adjacent repeats collapsed |
| `ModelSwitches.LogIsCollapsedCommits` | backend/src/model_switches.rs:204-311 | the same over every schedule of transactions, statement by statement, once the metadata row exists: each row names the observation committed immediately before, and launch model plus log is the sequence of committed observations with repeats collapsed |
| `ModelSwitches.RunTracks` | backend/src/model_switches.rs:193-311 | each row's source model and effort are those of the observation immediately before the one that caused it |
| `ModelSwitches.AnswersKeepTransitions` | backend/src/model_switches.rs:406-485 | answers and interrupts leave the observed baseline and the recorded transitions alone |
| `ModelSwitches.DeparturesStayOnRecord` | backend/src/model_switches.rs:193-311 | over every run with careful adoptions, a session off its confirmed model has an enforced latest row that is open or was declined |
| `ModelSwitches.GuardedThroughoutIffCareful` | backend/src/model_switches.rs:406-453 | a run keeps that after every operation if and only if each adoption in it is careful |
| `ModelSwitches.StaleAdoptionBreaksGuard` | backend/src/model_switches.rs:406-453 | for any two models, a run from nothing that breaks it: there, back, and adopt the first switch |
| `ModelSwitches.AdoptKeepsGuardIff` | backend/src/model_switches.rs:406-453 | one adoption keeps that if and only if it adopts the model now running or the last row still stands |
| `ModelSwitches.ObserveKeepsGuard` | backend/src/model_switches.rs:193-311 | an observation keeps that |
| `ModelSwitches.NoPendingSwitchIsConfirmed` | backend/src/model_switches.rs:204-298 | in every committed state of every schedule of transactions, failed ones included, no open enforced switch is onto the confirmed model |
| `ModelSwitches.StepKeepsInv` | backend/src/model_switches.rs:412-451 | every statement, lock, commit and rollback keeps the invariant behind it |
| `ModelSwitches.ConfirmedChangesOnlyByAdoption` | backend/src/model_switches.rs:351-377 | an existing confirmed model changes only when an adoption commits, and then to the model adopted |
| `ModelSwitches.LockedObserveIsAtomic` | backend/src/model_switches.rs:204-298 | with the metadata row locked, an observation that commits acted as one atomic step on the committed state |
| `ModelSwitches.SchedulesAreSerial` | backend/src/model_switches.rs:200-453 | where the metadata row exists, every schedule of the statements of observations and answers, aborted ones included, leaves the session as the calls would one after the other, in the order of their commits |
| `ModelSwitches.CommittedAckIsAtomic` | backend/src/model_switches.rs:406-453 | with or without that row, a committed answer is the atomic one, whatever ran between its three statements |
| `ModelSwitches.AloneIsTheCall` | backend/src/model_switches.rs:200-453 | with no transaction open, the statements of every call run to their end and have exactly its effect |
| `ModelSwitches.NoOffsetTwice` | backend/src/model_switches.rs:260-285 | over every schedule no two rows have one offset: a record read again adds none |
| `ModelSwitches.UnlockedObserveIsAtomicIff` | backend/src/model_switches.rs:204-240 | without a row to lock, it did so if and only if no first sighting of another model committed in between |
| `ModelSwitches.FirstSightingsRace` | backend/src/model_switches.rs:204-240 | a schedule, for any two models, in which the switch between them leaves no row |
| `ModelSwitches.EnforcementStopsOnlyDepartures` | backend/src/model_switches.rs:459-485 | in every schedule only a switch away from the confirmed model is pending enforcement, and an interrupted one is not pending again |
| `ModelSwitches.DepartureIsPending` | backend/src/model_switches.rs:245-298 | a switch just observed is pending enforcement while the turn runs if and only if it departs from the confirmed model; no other row becomes or stops being so |
| `ModelSwitches.PendingIffNotInterrupted` | backend/src/model_switches.rs:459-485 | over every schedule: while the session works, a row is pending if and only if it is enforced, open, and no interrupt of it was recorded |
| `ModelSwitches.AnswerEffect` | backend/src/model_switches.rs:406-453 | refused, an answer changes nothing; declined, it closes that row alone; adopted, it closes every open row onto the model and confirms it |
| `ModelSwitches.SwitchGuard.ObserveEvent` | backend/src/model_switches.rs:193-311 | the statements do what an observation does, and the id returned is that of the new row, if any |
| `ModelSwitches.SwitchGuard.WriteBaseline` | backend/src/model_switches.rs:351-377 | replaces the observed values and keeps an existing confirmed model |
| `ModelSwitches.SwitchGuard.AcknowledgeSwitch` | backend/src/model_switches.rs:406-453 | closes the row, and on adoption confirms its model and closes every other open row onto it; refused exactly when the row is not open |
| `CoalescedSnapshot.SnapshotSafety` | backend/src/api/app_state_routes.rs:51-72 | in every interleaving with failing and dropped builds: builds never overlap, the counter is the number completed, one caller holds the lock, and whatever a caller is given completed after it loaded the counter |
| `CoalescedSnapshot.FreshIffNoBuildRunning` | backend/src/api/app_state_routes.rs:28-37 | in every reachable state: a caller arriving now is sure of a snapshot started after it arrived if and only if no build is running |
| `CoalescedSnapshot.WaitingCallerGetsItsTurn` | backend/src/api/app_state_routes.rs:51-72 | however a build ends, by success, error or drop, the next waiting caller gets the lock: with the snapshot if the build completed, with a build of its own if it did not |
| `CoalescedSnapshot.RunningBuildIsShared` | backend/src/api/app_state_routes.rs:806-863 | from every state with a running build, a continuation that hands that build to a caller who arrived while it ran |
| `CoalescedSnapshot.StepKeepsInv` | backend/src/api/app_state_routes.rs:51-72 | the invariant behind these, action by action |
| `SigningKeys.RefreshesAreSpaced` | backend/src/auth.rs:186-221 | in every interleaving of lookups, background ticks, failures and dropped callers, refreshes start at least the cooldown apart and run one at a time |
| `SigningKeys.FoundKeysAreYoung` | backend/src/auth.rs:144-184 | a returned key comes, under the requested id, from a key set stamped, before it waits for the cache lock, less than the cache lifetime before it was read |
| `SigningKeys.CachedKeyIsFound` | backend/src/auth.rs:144-176 | every read but the one that judges a failed lookup finds the key whenever the cache is younger than an hour and holds it |
| `SigningKeys.OldKeyIsNotServed` | backend/src/auth.rs:144-176 | an hour after a lookup arrived, nothing that was cached then is served to it |
| `SigningKeys.FetchedKeyIsFound` | backend/src/auth.rs:144-221 | a key that was just fetched is found by the lookup that fetched it |
| `SigningKeys.UnavailableOnlyIf` | backend/src/auth.rs:144-184 | a lookup ends as unavailable only when its request failed, within the cooldown of a failed one, or within that of a stored one whose keys have gone too old |
| `SigningKeys.RefreshStartsIffCooledDown` | backend/src/auth.rs:154-169 | a request starts exactly when the last one started at least thirty seconds ago |
| `SigningKeys.OutcomeIsRemembered` | backend/src/auth.rs:186-221 | failed or dropped, a refresh counts as failed; stored, as succeeded, with its keys in the cache |
| `SigningKeys.EveryTaskCanFinish` | backend/src/auth.rs:144-221 | nobody is stuck: from every state of every interleaving, each lookup and refresh in flight can be brought to its end by moves of it and of the holder of the lock, whether requests are answered or fail |
| `SigningKeys.MissingIsTruthful` | backend/src/auth.rs:144-167 | a key id is reported missing only for a loaded key set that lacks it or had outlived the cache lifetime |
| `SigningKeys.EveryFailedRefreshKeepsCache` | backend/src/auth.rs:186-221 | from the start of the program, whatever ran before and meanwhile, a refresh that fails, or is dropped before its keys are stored, leaves the cached keys as they were when it started |
| `SigningKeys.FailedRefreshKeepsCache` | backend/src/auth.rs:186-221 | the same from any state the invariant allows |
| `SigningKeys.FetchingFreezesCache` | backend/src/auth.rs:186-221 | from the start of a request until it replaces the cache itself nothing else does |
| `SigningKeys.StepKeepsInv` | backend/src/auth.rs:70-89 | the invariant behind these, action by action, the background tick included |
| `MetaRepos.GroupsStayConsistent` | backend/src/meta_repos.rs:108-250 | over every run of create, update, delete, repository rename and repository delete: each repository is in at most one group, every group has its primary among its members, group names differ ignoring case |
| `MetaRepos.StepKeepsInv` | backend/src/meta_repos.rs:108-250 | each request keeps that, accepted or refused |
| `MetaRepos.RenameMovesTogether` | backend/src/meta_repos.rs:179-199 | membership and primary move together, no other repository is touched and no rows merge |
| `MetaRepos.RenameKeepsInv` | backend/src/repo_lifecycle.rs:185-208 | a rename to a name no group has cannot collide |
| `MetaRepos.RemovalPassesPrimaryOn` | backend/src/meta_repos.rs:201-250 | deleting a repository removes its row, deletes the group if it was alone, and otherwise keeps the primary or passes it to the first remaining member |
| `MetaRepos.DeletedGroupIsGone` | backend/src/meta_repos.rs:168-177 | deleting takes the group and its members away, and nothing else |
| `MetaRepos.FirstExists` | backend/src/meta_repos.rs:230-240 | there is such a first member in every non-empty group |
| `MetaRepos.NormalizeMembers` | backend/src/meta_repos.rs:252-285 | the loop accepts exactly the lists of valid, distinct names after trimming |
| `MetaRepos.NormalizeInput` | backend/src/meta_repos.rs:252-305 | accepts exactly the inputs with a good name, at least one member and the primary among the members |
| `MetaRepos.AcceptedGroupIs` | backend/src/meta_repos.rs:108-166 | an accepted request gives the group the trimmed name and primary and exactly the trimmed members, and changes no other group |
| `MetaRepos.CreateAcceptedIff` | backend/src/meta_repos.rs:108-128 | a create is accepted exactly when its input is good, its repositories exist and the group would break no invariant |
| `MetaRepos.UpdateAcceptedIff` | backend/src/meta_repos.rs:130-166 | so is an update of a group that exists |
| `MetaRepos.SameLowerIff` | backend/src/meta_repos.rs:307-330 | comparing lower-case forms compares the names letter by letter, ignoring ASCII case |
| `MetaRepos.ValidRepoNameIff` | backend/src/workspace.rs:268-274 | a repository name is one path component that neither is hidden nor climbs |
| `MetaRepos.ValidNameIff` | backend/src/meta_repos.rs:287-305 | a group name has 1 to 80 characters and no control character |
| `MetaRepos.MetaRepoStore.Create` | backend/src/meta_repos.rs:108-128 | adds the group and its rows, or refuses and changes nothing, by the checks of the transaction |
| `MetaRepos.MetaRepoStore.Update` | backend/src/meta_repos.rs:130-166 | replaces the group and exactly its rows, or refuses with the right error and changes nothing |
| `MetaRepos.MetaRepoStore.Delete` | backend/src/meta_repos.rs:168-177 | removes the group with its rows |
| `MetaRepos.MetaRepoStore.RenameRepoReferences` | backend/src/meta_repos.rs:179-199 | both statements together rename the repository everywhere |
| `MetaRepos.MetaRepoStore.RemoveRepoMembership` | backend/src/meta_repos.rs:201-250 | the statements do what the removal above is proved about |
| `Plans.PlansStayConsistent` | backend/src/plans.rs:549-640 | in every reachable state: a PTY has at most one active attachment, to a plan of its own repository (renames included); a completed plan has no unfinished phase; a plan's status events chain from its creation to its stored status, and `closed_at` is set exactly on the closed ones |
| `Plans.AttachmentsAreToOpenPlans` | backend/src/plans.rs:549-640 | in every reachable state no active attachment is to a closed plan |
| `Plans.StepKeepsInv` | backend/src/plans.rs:33-335 | every request keeps that and the tree: parents exist, in the same repository and tree, one level up, phases and anchors where they belong |
| `Plans.PlansCloseBottomUp` | backend/src/plans.rs:187-205 | from empty tables, over every run that reopens no plan under a closed parent, no closed plan has an open branch |
| `Plans.RunKeepsBottomUp` | backend/src/plans.rs:187-205 | the same from any consistent state |
| `Plans.UpdateKeepsBottomUpIff` | backend/src/plans.rs:154-287 | an accepted update keeps that if and only if it does not reopen a plan under a closed parent |
| `Plans.ReopeningIsAccepted` | backend/src/plans.rs:154-287 | from any open branch that is its parent's only open one, three accepted updates leave it open under a closed plan |
| `Plans.ReopeningRun` | backend/src/plans.rs:154-287 | such a run from empty tables |
| `Plans.UpdateEffect` | backend/src/plans.rs:154-287 | an update is refused exactly by its guards, changes no other plan's status, and when it closes a plan moves each of its live PTYs to the open parent and frees the others |
| `Plans.UpdateAcceptedIff` | backend/src/plans.rs:154-220 | an update is accepted exactly when the plan exists, has a parent if one is required, and, to be closed, has no open branch and, to be completed, no unfinished phase that is not to be skipped |
| `Plans.UpdatePhases` | backend/src/plans.rs:187-287 | what an accepted update does to each phase: unfinished phases of the plan are skipped exactly when it closes and asks for that; a phase of another plan changes only when it is blocked, its plan is the open parent and a completed branch was opened to resolve it |
| `Plans.UpdateClosedAt` | backend/src/plans.rs:224-235 | a plan counts as closed from the update that closed it until one opens it again |
| `Plans.UpdateLogs` | backend/src/plans.rs:253-285 | what an accepted update logs: first the change of the plan with its status before and after, last on an open parent that the branch closed, and in between only moves of PTYs |
| `Plans.LogCountsAttachments` | backend/src/plans.rs:549-628 | in every reachable state, replaying the event log of a plan gives the number of PTYs on it, although closing a plan detaches them without events of their own |
| `Plans.ChangesShowInRevision` | backend/src/plans.rs:642-649 | every request raises the revision of every plan whose status, repository, phases or attached PTYs it changes, and lowers none |
| `Plans.CloseEffect` | backend/src/plans/branches.rs:155-251 | closing a branch into its parent never fails half-way and leaves every PTY where that says |
| `Plans.PopEffect` | backend/src/plans/branches.rs:204-240 | moving any list of PTYs onto a plan of their repository succeeds and attaches exactly the live ones |
| `Plans.AttachEffect` | backend/src/plans.rs:549-628 | attaching leaves the PTY on that plan and every other PTY where it was, and no status event |
| `Plans.BranchKeepsInv` | backend/src/plans/branches.rs:29-114 | a branch keeps the invariant: one level down, at most eight, anchored in its open parent |
| `Plans.BranchAcceptedIff` | backend/src/plans/branches.rs:29-114 | a branch is accepted exactly when its parent is open and less than eight levels deep, it has phases, at least one anchor in the parent, and an author, if any, live in the repository |
| `Plans.BranchedPlanIs` | backend/src/plans/branches.rs:29-114 | it is an open plan one level below its parent with its phases and anchors; the pending ones among the anchor phases get under way, no other phase changes, and its author moves to it |
| `Plans.CreateKeepsInv` | backend/src/plans.rs:33-60 | so does a new root plan |
| `Plans.CreatedPlanIs` | backend/src/plans.rs:33-60 | exactly when it is accepted, and that it is an open root with its phases and its author on it; nothing else moves |
| `Plans.CreationLogs` | backend/src/plans.rs:457-547 | what creating a plan or branch logs: its creation, each anchor on the parent, then only the moves of its author |
| `Plans.DetachOneKeepsInv` | backend/src/plans.rs:303-335 | so does a detachment |
| `Plans.DetachFrees` | backend/src/plans.rs:303-335 | it takes that PTY off that plan, and leaves every other one where it was |
| `Plans.SetPhaseKeepsInv` | backend/src/plans/phases.rs:14-149 | so does a phase added to or changed in an open plan |
| `Plans.PhaseWrittenIs` | backend/src/plans/phases.rs:14-149 | a phase is written exactly in an open plan, never taken from another, and nothing else changes but a revision |
| `Plans.RenameKeepsInv` | backend/src/repo_lifecycle.rs:294-370 | renaming the repository carries plans and terminals together |
| `Plans.RenameMoves` | backend/src/repo_lifecycle.rs:294-370 | every plan and terminal of the old name gets the new one, and nothing else moves |
| `Plans.PlanStore.UpdatePlan` | backend/src/plans.rs:154-287 | the statements of an update, rolled back when closing fails, have the effect above |
| `Plans.PlanStore.CloseBranchIntoParent` | backend/src/plans/branches.rs:155-251 | the statements and the loop over PTYs, against the same function |
| `Plans.PlanStore.AttachInTransaction` | backend/src/plans.rs:549-628 | the statements of an attachment, refused exactly for a closed or foreign plan or an unknown PTY |
| `Plans.PlanStore.AttachPty` | backend/src/plans.rs:289-301 | attaching, or changing nothing |
| `Plans.PlanStore.DetachPtyFrom` | backend/src/plans.rs:303-335 | ends the active attachment of that PTY to that plan, if there is one, with its event |
| `Plans.PlanStore.CreatePlan` | backend/src/plans.rs:33-60 | the plan, its phases, its event and the attachment of its author, or nothing |
| `Plans.PlanStore.OpenBranch` | backend/src/plans/branches.rs:29-114 | the branch with its anchors, whose pending phases get under way, or nothing |
| `Plans.PlanStore.InsertPlan` | backend/src/plans.rs:457-547 | a plan row at revision one with its phases and its creation event |
| `SessionActivity.GateAndViewAgreeIff` | backend/src/api/app_state_routes.rs:430-489 | the prompt gate and the projected activity agree on starting, needs-input and blocked for every live running PTY, and elsewhere exactly when nothing is pending |
| `SessionActivity.CorrelationSurvivesWrites` | backend/src/submitted_prompts.rs:58-129 | readiness from a launch-scoped correlation survives every sequence of activity writes |
| `SessionActivity.PromptKeepsReadinessIffCorrelated` | backend/src/api/session_routes.rs:415-476 | after a sent prompt the agent counts as ready, and the next one is accepted, if and only if it is correlated for this launch |
| `SessionActivity.NewLaunchWaitsForCorrelation` | backend/src/submitted_prompts.rs:58-88 | relaunching forgets the previous agent: once it runs, prompts are accepted if and only if a session was correlated since this launch |
| `SessionActivity.ReportMakesReadyIff` | backend/src/submitted_prompts.rs:58-129 | a report makes a running agent ready if and only if it comes from the agent, its hooks or the transcript, or the agent is correlated for this launch |
| `SessionActivity.SessionReportReaches` | backend/src/activity.rs:99-139 | a report about a session reaches exactly the live terminals with an agent starting or running on it, and replaces everything but the agent's own request at a turn end |
| `SessionActivity.RunningTerminalShows` | backend/src/api/app_state_routes.rs:430-489 | a live running terminal shows starting until its agent is ready, then what was reported |
| `SessionActivity.ExitEndsLaunchedAgent` | backend/src/correlate.rs:546-562 | an exit report ends an agent exactly when it is starting or running and the one launched, or none was named; the activity goes in any case, and prompts are refused from then on |
| `SessionActivity.RunningKeepsStart` | backend/src/correlate.rs:501-545 | a running report reaches a live terminal only, sets the start time once and never moves it |
| `SessionActivity.RequestsSurviveTurnEnds` | backend/src/activity.rs:40-139 | an agent's own request for attention is not cleared by any number of turn ends |
| `SessionActivity.CorrelationIsSafeIffAlone` | backend/src/correlate.rs:439-497 | in every state reached without a race: once a correlation has begun, its session and all others stay current in at most one PTY at every statement of every continuation without a further race, if and only if no correlation of its session to another PTY was in flight |
| `SessionActivity.TwoInFlightShare` | backend/src/correlate.rs:439-497 | two correlations of one session to different PTYs, wherever they stand, have a continuation that leaves it current in both |
| `SessionActivity.SessionsStayExclusive` | backend/src/correlate.rs:439-497 | from empty tables, at every statement of every run whose correlations of one session do not race, among launches, exits, respawns and activity writes, a session is current in at most one PTY |
| `SessionActivity.CorrelationAlone` | backend/src/correlate.rs:439-497 | uninterrupted, the three statements move the session to the terminal and out of every other one and touch nothing else |
| `SessionActivity.TerminalComesAndGoes` | backend/src/pty/spawn.rs:16-30 | an ended terminal shows as a shell and refuses prompts; spawned again it is live with the session and correlation it had |
| `SessionActivity.OrderlyRunsStayExclusive` | backend/src/correlate.rs:439-497 | the same from any state the invariant allows |
| `SessionActivity.RacingCorrelationsShare` | backend/src/correlate.rs:439-497 | for any session and any two PTYs, an interleaving of the statements that leaves it current in both |
| `SessionActivity.StepKeepsInv` | backend/src/correlate.rs:439-497 | each statement keeps that when no other correlation races for the session |
| `SessionActivity.ActivityTable.SetActivity` | backend/src/activity.rs:40-89 | writes for a live PTY unless the end of a turn would replace an agent's request, and returns the row as it stands |
| `SessionActivity.ActivityTable.ClearActivity` | backend/src/activity.rs:91-97 | removes that PTY's row only |
| `SessionActivity.ActivityTable.Apply` | backend/src/correlate.rs:439-497 | alone, the three statements move the session to the PTY and out of every other |
| `SessionActivity.ActivityTable.ApplyRunning` | backend/src/correlate.rs:501-545 | only a live PTY runs, its start time is kept, its activity becomes unknown |
| `SessionActivity.ActivityTable.ApplyExited` | backend/src/correlate.rs:546-562 | only the agent that was launched exits, and the activity goes in any case |
| `SessionActivity.ActivityTable.SendSessionPrompt` | backend/src/api/session_routes.rs:415-476 | refused, with nothing recorded, exactly when blank, not live, not running, or gated and not forced; otherwise the prompt is recorded, with its error if delivery fails, and only a delivered one is followed by the user's write |
| `UsageMetrics.OrderDoesNotMatter` | backend/src/metrics.rs:182-200 | saturating accumulation of non-negative rows gives the same for every order of them |
| `UsageMetrics.AccumulatedIsCappedSum` | backend/src/metrics.rs:182-200 | it is the exact sum, capped once at the end, with the exact cost |
| `UsageMetrics.ChargedAsPublished` | backend/src/metrics.rs:232-295 | a row costs, per million tokens of each of the five kinds, the price published for its model; one of an unlisted model costs nothing and is unpriced in full |
| `UsageMetrics.CostByKind` | backend/src/metrics.rs:232-240 | each kind of token is charged at its own rate |
| `UsageMetrics.GroupingDoesNotMatter` | backend/src/metrics.rs:345-393 | combining the accumulators of any split of the rows, in any order, gives the accumulator of the whole |
| `UsageMetrics.ShownGroupingDoesNotMatter` | backend/src/metrics.rs:202-218 | the same for the token figures shown, which are saturating sums of saturated sums |
| `UsageMetrics.ShownAreCappedSums` | backend/src/metrics.rs:202-218 | each is the exact sum, capped once |
| `UsageMetrics.ReposMakeAllTime` | backend/src/metrics.rs:345-393 | the per-repository totals combine to the all-time total |
| `UsageMetrics.ReposMakeToday` | backend/src/metrics.rs:345-393 | so do those of today |
| `UsageMetrics.ReposMakeLast7d` | backend/src/metrics.rs:345-393 | and those of the last seven days |
| `UsageMetrics.TodayIsItsDay` | backend/src/metrics.rs:345-393 | the figure for today is the last of the daily ones |
| `UsageMetrics.EveryRowIsAttributed` | backend/src/metrics.rs:345-393 | every row is reported under its repository, or under one name for those without |
| `UsageMetrics.DaysMakeLast7d` | backend/src/metrics.rs:345-393 | the last seven daily figures combine to the seven-day total |
| `UsageMetrics.ModelsMakeDays` | backend/src/metrics.rs:345-393 | the per-model totals and the fourteen daily figures combine to the same total |
| `UsageMetrics.CostDoesNotOverflow` | backend/src/metrics.rs:232-240 | fewer than 2^47 rows of `i64` counts at the catalog's rates cannot overflow `i128` |
| `UsageMetrics.RatesAreSmall` | backend/src/metrics.rs:266-295 | the bound on every published rate that this rests on |
| `UsageMetrics.UsageReport` | backend/src/metrics.rs:333-393 | the row loop leaves in every figure of the report the accumulation of exactly the rows that belong to it |
| `Library.LibraryTable.PutLibraryRoot` | backend/src/api/library_routes.rs:38-55 | never overwrites: the entry is new, under the first free of `d`, `d-2`, `d-3`, ..., which is also the slug saved and returned; a name without a slug changes nothing |
| `Library.NextAvailableSlug` | backend/src/library.rs:91-112 | the probe ends within one more try than there are taken slugs, with the first free candidate |
| `Library.FirstFreeIs` | backend/src/library.rs:91-112 | the slug found is the desired one exactly when that is free, and otherwise carries the least number from 2 on whose candidate is free |
| `Library.SanitiseIsIdempotent` | backend/src/library.rs:56-77 | sanitising an accepted slug again changes nothing |
| `Library.FixedIffSlug` | backend/src/library.rs:56-77 | a string is accepted unchanged if and only if it is non-empty, of the allowed characters, without doubled, leading or trailing hyphens |
| `Library.SlugIsWords` | backend/src/library.rs:56-77 | a name becomes its readable words joined by single hyphens, and is refused exactly when there are none or they begin with a dot |
| `Library.SanitiseSlug` | backend/src/library.rs:56-77 | the loop of replacements ends, and equals collapsing each run of hyphens once |
| `Library.ReplaceKeepsCollapse` | backend/src/library.rs:66-68 | each replacement keeps the collapsed form, and shortens the string while there is a double hyphen |
| `Library.CandidateInjective` | backend/src/library.rs:91-112 | no candidate repeats |
| `Library.CandidateIsSlug` | backend/src/library.rs:91-112 | every candidate for a slug is a slug, so the second sanitise leaves it alone |
| `Library.LibraryTable.Save` | backend/src/library.rs:148-171 | inserts or overwrites exactly the entry of the sanitised slug, keeping its creation time |
| `Library.SavedTwice` | backend/src/library.rs:148-171 | saving again keeps when the entry was created, shows the later name and body, and leaves every other entry alone |
| `Library.LibraryTable.Delete` | backend/src/library.rs:173-185 | removes exactly the entry of the sanitised slug and says whether there was one |
| `FileContent.ServesSelectedBytes` | backend/src/api/file_content.rs:31-108 | every single range of section 14.1.1, leading zeros included, whose numbers fit 64 bits is answered with exactly the bytes RFC 9110 selects when there are any, and 416 otherwise |
| `FileContent.HonouredIffFits` | backend/src/api/file_content.rs:67-108 | a range is ignored if and only if one of its numbers does not fit |
| `FileContent.PastU64IsIgnored` | backend/src/api/file_content.rs:67-108 | for every last position from 2^64 on, a range that selects the whole of a file is ignored |
| `FileContent.SeveralRangesRefused` | backend/src/api/file_content.rs:73-75 | a range followed by a comma and anything else is answered 416, whatever it selects |
| `FileContent.NoRangeServedWhole` | backend/src/api/file_content.rs:67-82 | without a header, in another unit or without a dash, the whole file is served |
| `FileContent.AcceptedRangeIsInside` | backend/src/api/file_content.rs:67-108 | for every header, however malformed, an accepted range lies inside the file |
| `FileContent.FetchReassembles` | backend/src/api/file_content.rs:31-65 | fetching consecutive `k`-byte ranges ends with a 416 and reassembles exactly the file |
| `FileContent.RequestAdvances` | backend/src/api/file_content.rs:31-65 | each such request brings at least one byte, the next ones in order |

## Left out

- SubmittedPrompts.LiveGreedyIsMaximum: excludes turns that arrive out of order (`OutOfOrderTurnIsTooLate`) and links of existing sessions that change; prompts recorded during the run are not among those compared.
- SubmittedPrompts.NoTurnIsHeldTwice: `reconcile` is one atomic statement; two of them overlapping in the database are not modelled.
- GitStatusModel.FingerprintIdentifies: text is a sequence of characters; bytes that are not UTF-8 and their lossy decoding are not modelled.
- GitStatusModel.PorcelainRoundTrip: the branch and origin commands, `read_log` and `read_diff_stats` are not parsed; their results are part of the status.
- RepoState.EveryRunServesLastStatus: newline-free paths only; with newlines another status can be served (`NewlinePathHidesStatus`).
- RepoState.EveryRunShowsLastStatus: adds that the counts are those the paths imply, which the records decide (`CountsImpliedIffUnrepeated`); without it other counts can be shown (`StaleCountsAreShown`).
- RepoState.ShowsLastIff: a head sha is assumed to fix the commit's data, and the parsing of its time is part of it; diff stats of paths that are not dirty, which nothing reads back, are ignored.
- ModelSwitches.RunTracks: the observations have distinct offsets and name a model; the transcript parsers that produce them are not modelled.
- ModelSwitches.DeparturesStayOnRecord: excludes exactly the adoptions that break it (`GuardedThroughoutIffCareful`).
- ModelSwitches.SchedulesAreSerial: where no metadata row exists yet it fails (`FirstSightingsRace`; exactly when: `UnlockedObserveIsAtomicIff`).
- ModelSwitches.EnforcementStopsOnlyDepartures: what `turn_state` and the join with the live terminal report is an input.
- MetaRepos.NormalizeInput: the members become a set, since only the set is stored; the order they are sorted into before that is not kept, and `LOWER` and trimming are those of ASCII.
- MetaRepos.GroupsStayConsistent: a rename is one the lifecycle checks allow: to another name that no group has.
- Plans.UpdateLogs: events about phases and guidance are not among those modelled.
- Plans.PlansCloseBottomUp: excludes reopening under a closed parent (`ReopeningIsAccepted`).
- Plans.SetPhaseKeepsInv: `move_phase`, phase positions, sizes, texts and phase events are not modelled.
- Plans.PlansStayConsistent: a terminal that is spawned again keeps its repository; the upsert of `backend/src/pty/spawn.rs:16-30` could write another, and what callers pass is not part of this model.
- SessionActivity.RequestsSurviveTurnEnds: clearing the row, which an exit does, is excluded.
- SessionActivity.SessionsStayExclusive: excludes correlations of one session that race; `CorrelationIsSafeIffAlone` says exactly when one does.
- SessionActivity.ActivityTable.ApplyRunning: one attempt of the update; the loop that retries it with delays is not modelled.
- SessionActivity.ActivityTable.SetActivity: texts, confidence and times of an activity are not modelled; neither is the ingester's projection of activity.
- FileContent.FetchReassembles: the file and one range together stay below 2^64 bytes.
- FileContent.ServesSelectedBytes: one range, spelled as section 14.1.1 writes it; the blanks and plus signs the parser also accepts are covered by `AcceptedRangeIsInside` only, and a unit other than lower-case `bytes` is ignored.
- Library.LibraryTable.PutLibraryRoot: no other request writes between probe and save; a suffix beyond 32 bits is not modelled.
- UsageMetrics.UsageReport: a day is a number and the rows are given; the SQL that groups them, the sorting of the report and the rounding to dollars in `window` are not modelled.
- Schedule columns, CI and git activity of repositories, and the scan of the directory for repositories.
- The SQL engine, connection pooling and isolation other than the row locks of `model_switches.rs`.
- Switch contexts, rate limits, session lists, plan texts, guidance and views, library listing and reading: they carry data through.
- Real clocks: times are numbers, and never go back only where the signing keys need it.
- Cryptography, token verification, the secret broker, worktrees, `/proc` scanning, PTY and WebSocket traffic, HTTP handlers other than those cited, the command line, the frontend.
