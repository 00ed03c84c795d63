# A verified model of the workspace tool's recovery, locking and planning core

`tws` keeps several Git branches of one feature in a workspace.  It renames features, synchronises stacks of
branches, publishes rebase plans for approval, opens commands in a shared checkout and reports the status of all of
it, and it promises to survive a crash in the middle of any of these.  This project models the parts that carry
those promises and proves them: crash recovery over every interleaving of failures, power cuts and resumes; locks
over every history of concurrent processes; encodings that determine what they encode; and documents that never
claim more than their evidence.

`dafny verify dfyconfig.toml` checks everything.

| file | what it models |
|---|---|
| `RenameJournal.dfy` | the append-only journal of an external feature rename and the grammar of its events |
| `RenameDisk.dfy` | the rename's visible and durable disk, `pointerState`, and the invariant tying both to the journal |
| `RenameExecutor.dfy` | the rename executor under a script of failures, deaths and power cuts |
| `RenameAdmission.dfy` | shared and exclusive name locks, the recheck of unfinished renames, the registry lock |
| `Paths.dfy`, `PointerImage.dfy` | the path algebra (`Clean`, `Join`, `Rel`) and the rewriting of Git pointer files |
| `RootResolution.dfy` | the symbolic-link walk of a root, POSIX resolution, and the raw walk over recorded links |
| `CheckoutPlan.dfy` | the topological sort of a stack and the plan built from it |
| `CheckoutSync.dfy`, `CheckoutSyncRun.dfy` | the checkout-sync transaction: its persisted states, its theorems and its executor |
| `MutationLock.dfy` | the workspace-wide checkout mutation lock with takeover of dead owners |
| `CommandSession.dfy` | the record and lock of a command run in the shared checkout |
| `Tlv.dfy`, `PlanFingerprint.dfy`, `PlanFingerprintReading.dfy` | the length-prefixed encoder, the fingerprint pre-image of a rebase plan, and what its bytes say |
| `PlanSummary.dfy` | the summary of a plan's entries: its counts, its replay bounds and its collateral references |
| `PlanGuard.dfy` | limit evaluation, blockers, the approval waiver and the assembled document |
| `WorktreeInventory.dfy` | the fail-closed parser of `git worktree list --porcelain` |
| `StatusReport.dfy` | the status builder, its rollups and `FilterFeature` |
| `Options.dfy`, `Strings.dfy` | an option type; splitting and joining |

## How crashes are modelled

Every effect of an executor may fail before or after it took place.  A process that dies is the run in which nothing
after some point has an effect, so an invariant that survives every pattern of failures survives every death.  The
rename goes further: it keeps two disks, the visible one and the part that is durable, and a power cut keeps or loses
each unsynchronised change independently, the last journal record included, which may also be left torn.  Successful
outcomes are stated as well: where no effect fails (`Quiet`, `smooth`, no mishaps), the executor succeeds exactly when
its documented conditions hold.  So are the failures the code answers for: where one thing fails (`Single`, one mishap)
what was begun is undone, and where only rebases, validations and pushes do (`calm`) a sync stops where its file says.

## Where the code and its promises part

Each of these is a statement that is false of the code as it is.  The code was kept, and the exact condition proved.

- Rename recovery does not converge from every crash point.  Besides a staging directory without its `done` record,
  which the code refuses deliberately (`internal/feature_rename.go:766-768`, `internal/feature_rename.go:1073-1076`),
  a journal record cut short by a crash also closes both directions.  `RenameExecutor.Operation.Converge` states
  convergence as an equivalence with the absence of these two; `RenameExecutor.ReachTornRecord` and
  `ReachUnadoptedStaging` run a fresh rename into each.
- A checkout sync that dies while it closes the action of an interrupted switch is left at stage `switched` with no
  action pending, and the next continuation rebases whatever branch HEAD is on (`internal/checkout_sync.go:2089-2112`).
  `CheckoutSyncRun.ReachWindow` runs two processes into that state with HEAD on an earlier entry's branch.  A rebase
  there can leave a later branch off its base while every later ancestry check passes
  (`CheckoutSync.SwitchedWindowBreaksDescent`).  The arm keeps the invariant exactly when HEAD's branch is no base in
  use (`CheckoutSync.SwitchedArmExact`), which `CheckoutSyncRun.Run.Continue` asks of its caller.
- A rebase that somebody else left in progress is recorded as a conflict of the current entry
  (`internal/checkout_sync.go:2067-2076`).  `CheckoutSync.ForeignRebaseConflictExact` says when that keeps the
  bookkeeping sound; after the last entry, where there is no current one, it does not.
- `TopoSort` looks at entry names, the plan at Git branches.  A base that spells another entry's Git branch rather than
  its name is sorted without complaint and may come before it (`CheckoutPlan.PlanOrderExact`, `LiteralAliasExists`).
- A reparent gives up the mutation lock before it last saves and then removes its state file
  (`internal/reparent_exec.go:5952-5988`), and its recovery does not read that file again under the lock.  Of two
  recoveries begun from one state file, one can be held up there while the other ends; when it goes on, the file of a
  reparent that has ended lies beside the state of whoever holds the lock, perhaps of another feature, and counts as
  recoverable until it is removed (`MutationLock.StaleRecoveryMixes`).  What is unfinished is the holder's own and of
  one feature in every history (`HolderOwnsAllState`, `StateOfOneFeature`).  All recoverable files are accounted for
  throughout a history exactly when each such save finds its file still there, or nothing foreign
  (`AccountedExactly`); where recoveries of a reparent do not overlap it always does (`OrderlyOwnership`).
- `TopoSort` takes a name that occurs twice for a cycle, unless no entry of that name is based on another entry: such a
  root is listed as often as it occurs, each time as the last entry of its name (`CheckoutPlan.TopoSort`).
- A process that dies between creating the mutation lock and writing it, or fails there and cannot remove the file,
  closes the workspace to everybody, for good (`MutationLock.UnwrittenLockStays`, `LockAbandoned`).
- The four-byte length of an encoded element wraps at 2^32 bytes, where two different arrays share one encoding
  (`Tlv.LengthWrapCollides`).  Below that the encoding is injective.
- A pointer file is rewritten without complaint although its image will be misread, when the value carried into it,
  kept, absolute or relative, ends in a character that reads as part of the line ending
  (`PointerImage.ImageReadsBackExactly`, with an input in `MisreadImage`).
- `FilterFeature` keeps the workspace's presence, which counts the features it drops, but not their attention: a
  document of the builder's own can show a stale workspace as idle once it is filtered
  (`StatusReport.FilteredHonestExactly`, `FilteredCanReadIdle`).
- A checkout command that dies between its record and its switch, or between its links, leaves a record that its own
  undo would accept and every later `tws close` refuses (`CommandSession.CloseNeedsStarted`, `StrandedRecord`).

## Model

| member | source | states |
|---|---|---|
| RenameJournal.LoadJournal | internal/feature_rename_state.go:129-187 | a journal directory loads exactly when each record is valid after the records before it, and the log it yields is accepted by the event grammar |
| RenameJournal.LoadsExactlyWritten | internal/feature_rename_state.go:129-187 | what the executor writes loads again, and nothing else does: an accepted log, numbered without gaps for this plan, a completed staging and no other event naming the directory made and the regular file in it |
| RenameJournal.GoodRecordsAccepted | internal/feature_rename_state.go:549-662 | record headers and staging evidence add nothing the grammar does not already accept |
| RenameJournal.AcceptedAt | internal/feature_rename_state.go:549-662 | every event of an accepted log was valid at the moment it was appended |
| RenameJournal.TerminalOutcomesExclusive | internal/feature_rename_state.go:549-662 | no accepted log holds both outcomes, and a completed one holds no abort intent |
| RenameJournal.NothingAfterCleaned | internal/feature_rename_state.go:549-662 | the `cleaned` acknowledgement is the last event and occurs once |
| RenameJournal.ForwardFollowsFrozenOrder | internal/feature_rename_state.go:623-660 | in every accepted log the acknowledged forward effects are a prefix of stage-all, move, preserve and publish pointer by pointer, complete |
| RenameJournal.CompleteMeansEverything | internal/feature_rename_state.go:623-660 | a completed log acknowledges the whole frozen order, each effect once |
| RenameJournal.LogLengthBounded | internal/feature_rename_state.go:549-662 | no event is written twice, so n pointers allow at most 12(n+1) events: the termination measure of recovery |
| RenameDisk.InitInv | internal/feature_rename_state.go:56-127 | a fresh operation satisfies the disk invariant |
| RenameDisk.PowerCutKeepsInv | internal/feature_rename_fs.go:36-98 | losing any subset of unsynchronised changes keeps the invariant |
| RenameDisk.ExecutedFacts | internal/feature_rename_state.go:549-662 | what one event of an executed log says about all the others |
| RenameDisk.OldNameMeansOriginal | internal/feature_rename.go:818-859 | while the directory has its old name every pointer is live with its preimage, and a staged one is classified original |
| RenameDisk.RecognisedIsOwn | internal/feature_rename.go:818-859 | a pointer is recognised exactly when nothing but the operation's own files is about it and the preimage is in one place; what is live then tells its state |
| RenameDisk.PreimageConserved | internal/feature_rename.go:818-948 | until completion each preimage exists in exactly one of its live path and its saved path, on both disks |
| RenameDisk.PublishedInOrder | internal/feature_rename.go:646-684 | a pointer's publication is intended only after every earlier pointer's was acknowledged |
| RenameDisk.UnpublishedInReverse | internal/feature_rename.go:1052-1142 | rollback touches a pointer only after every later staged pointer was restored |
| RenameDisk.RegistryLast | internal/feature_rename.go:646-684 | whenever a later pointer shows its postimage so does every earlier one: the registry is published last and withdrawn first |
| RenameDisk.EffectsHaveDurableIntents | internal/feature_rename.go:616-644 | no effect, forward or backward, is visible before its intent is durable |
| RenameDisk.DoneMeansDurable | internal/feature_rename.go:616-644 | no acknowledgement exists before its effect is durable |
| RenameDisk.CommitIsFinal | internal/feature_rename.go:277-288 | after `complete` the move and every postimage stand on both disks |
| RenameDisk.AbortIsFinal | internal/feature_rename.go:277-288 | after an abort intent completion is out of reach, and a finished abort has everything back on both disks |
| RenameDisk.ReachableLogAccepted | internal/feature_rename_state.go:549-662 | every reachable journal is one the grammar accepts, bounded and in frozen order |
| RenameExecutor.Operation.Record | internal/feature_rename_state.go:697-736 | a record is appended at most once and only when valid; any write failure ends the invocation; without failures it succeeds exactly for valid or repeated events |
| RenameExecutor.Operation.SyncJournal | internal/feature_rename_fs.go:100-169 | a resumed invocation changes nothing but the durability of what it read |
| RenameExecutor.Operation.MoveFeature | internal/feature_rename.go:686-716 | the directory ends durably under the requested name, also when the move was found done; nothing else changes |
| RenameExecutor.Operation.ChangePointer | internal/feature_rename_fs.go:36-98 | one pointer takes exactly the given state, visibly and durably, or the step fails; no other pointer changes |
| RenameExecutor.Operation.PreservePointer | internal/feature_rename.go:861-877 | success leaves the pointer durably out of its original state; the invariant and every other pointer are kept |
| RenameExecutor.Operation.PublishPointer | internal/feature_rename.go:879-948 | success leaves the pointer durably published, also when it was found so |
| RenameExecutor.Operation.UnpublishPointer | internal/feature_rename.go:1098-1122 | success leaves the pointer durably unpublished |
| RenameExecutor.Operation.RestorePointer | internal/feature_rename.go:1123-1136 | success leaves the pointer durably original |
| RenameExecutor.Operation.PreparePointer | internal/feature_rename.go:739-784 | staging succeeds exactly when no unacknowledged staging directory is met, and touches no other pointer |
| RenameExecutor.Operation.CleanupPointer | internal/feature_rename.go:1167-1298 | success leaves the staging directory durably gone; nothing of unknown origin is removed |
| RenameExecutor.Operation.Effect | internal/feature_rename.go:616-644 | success means the acknowledgement is in the journal, and only events of this effect were added |
| RenameExecutor.Operation.DoneFits | internal/feature_rename.go:616-644 | an effect seen on both disks may be acknowledged |
| RenameExecutor.Operation.CleanUp | internal/feature_rename.go:1144-1165 | success means `cleaned` is recorded for the outcome reached |
| RenameExecutor.Operation.SyncFinalDirectories | internal/feature_rename_fs.go:171-195 | success means root and every live pointer are durable as they are; nothing visible changes and no event is added |
| RenameExecutor.Operation.Forward | internal/feature_rename.go:646-684 | success means completed and cleaned; undisturbed it succeeds exactly when no unadopted staging directory is met |
| RenameExecutor.Operation.Rollback | internal/feature_rename.go:1052-1142 | success means aborted and cleaned; undisturbed it succeeds exactly when the rename is not complete and no unadopted staging directory is met |
| RenameExecutor.Operation.Run | internal/feature_rename.go:250-300 | whatever fails, the invariant holds and the journal only grows; success means settled, and completed unless the rename was being aborted; undisturbed, success is equivalent to a recoverable state and a permitted direction; where exactly one thing fails, a fresh rename that fails is rolled back and settled, unless it had written nothing, was complete, or left a staging directory unadopted |
| RenameExecutor.Operation.LosePower | internal/feature_rename_fs.go:36-98 | a power cut is one of the losses the invariant survives, and never loses durable records |
| RenameExecutor.Operation.Live | internal/feature_rename.go:250-300 | any history of commands with failures, deaths and power cuts keeps the invariant and every durable record |
| RenameExecutor.Operation.Converge | internal/feature_rename.go:277-288 | after any such history one undisturbed `--continue` settles the rename if and only if no record is torn and no staging directory unadopted, and one undisturbed `--abort` if and only if it is also not complete; a commit or an abort reached before decides which way |
| RenameExecutor.FailClosedWindows | internal/feature_rename.go:766-768 | the two refusing states satisfy the invariant and are not recoverable |
| RenameExecutor.ReachTornRecord | internal/feature_rename_state.go:697-736 | a fresh rename whose first journal write fails ends in the first of them |
| RenameExecutor.ReachUnadoptedStaging | internal/feature_rename.go:739-784 | one that dies after making its first staging directory ends in the second |
| RenameExecutor.ReceiptIsSettled | internal/feature_rename.go:1144-1165 | a cleaned journal means entirely moved or entirely not, on both disks, with every private file gone |
| RenameExecutor.StableHolds | internal/feature_rename.go:435-557 | the stability and inventory checks hold in every reachable state, so they refuse outside interference only |
| RenameExecutor.FinalHolds | internal/feature_rename.go:1023-1050 | the final check holds wherever the journal says the outcome is reached |
| RenameAdmission.StepKeepsInv | internal/feature_rename_admission.go:162-251 | every step of every process, a crash included, keeps locks, guarantees and journals consistent |
| RenameAdmission.ReachableInv | internal/feature_rename_admission.go:162-251 | so does every history of processes, from an empty workspace on |
| RenameAdmission.AdmittedNameIsUntouched | internal/feature_rename_admission.go:313-340 | while an ordinary command is admitted on a name, no unfinished rename has a name that opens the same lock file |
| RenameAdmission.OneExecutor | internal/feature_rename.go:96-137 | at most one process executes a rename in a root, and nobody edits the registry meanwhile |
| RenameAdmission.PendingRenamesApart | internal/feature_rename.go:116-130 | unfinished renames have disjoint names, and one that rewrites the registry is the only one |
| RenameAdmission.PublishKeepsInv | internal/feature_rename.go:219-221 | publishing a journal keeps every admitted command's guarantee |
| RenameAdmission.AttemptOutcome | internal/feature_rename_admission.go:162-340 | an attempt undisturbed by others is admitted, with exactly its locks, if and only if every lock file is free for its mode, an exclusive one names none twice, and the unfinished renames allow it; otherwise it leaves no trace |
| RenameAdmission.Leaves | internal/feature_rename_admission.go:253-269 | whoever leaves or dies takes its own locks along and nothing else; a finished rename its journal too |
| RenameAdmission.WholeRename | internal/feature_rename.go:96-221 | a fresh rename publishes a journal of exactly its names and leaves nothing behind when it is done; one that would rewrite the registry beside an unfinished rename gives up without a journal |
| RenameAdmission.WholeRecovery | internal/feature_rename.go:96-137 | a recovery of an unfinished rename, once its locks are free, is admitted with that very journal and ends with it gone |
| RenameAdmission.SpacesRunAlone | internal/feature_rename_admission.go:436-462 | a registry edit is admitted only while no rename is unfinished |
| RenameAdmission.RecoveryIsAllowed | internal/feature_rename.go:96-137 | a crash keeps the journal, and its recovery always passes the recheck |
| RenameAdmission.Admission.Acquire | internal/feature_rename_admission.go:162-251 | all locks or none: success exactly when every lock file is free for the mode and an exclusive request names none twice; the lock table gains exactly these locks |
| RenameAdmission.Admission.TakeOne | internal/feature_rename_admission.go:162-251 | a lock file met before is skipped by a shared request and refuses an exclusive one |
| RenameAdmission.Admission.Release | internal/feature_rename_admission.go:253-269 | exactly this process's locks go |
| Paths.CleanIsClean | internal/feature_rename_plan.go:283-331 | cleaning yields a clean path of the same names |
| Paths.JoinRel | internal/feature_rename_plan.go:283-331 | joining a base with the way from it to a clean target gives the target |
| Paths.RelIsRelative | internal/feature_rename_plan.go:283-331 | that way is relative and never empty |
| Paths.JoinNames | internal/feature_rename_plan.go:333-348 | joining walks the value's parts from the base |
| Paths.InsideExact | internal/feature_rename_plan.go:277-281 | a path is inside a root exactly when the root's names begin its own |
| PointerImage.RawPointerTouches | internal/feature_rename_plan.go:333-348 | true if and only if some place the raw walk of the value passes lies inside the root; an empty root is none |
| PointerImage.MovingRoot | internal/feature_rename_plan.go:283-331 | the loop over both spellings finds the first directory in which they differ, or none |
| PointerImage.RewritePointer | internal/feature_rename_plan.go:283-331 | refuses exactly unreadable or foreign pointers; keeps a file that still does, and otherwise writes the target, absolute or relative as before, with the old ending; the image reads back if and only if the value it carries is not mistaken for part of a line ending |
| PointerImage.RewriteLaw | internal/feature_rename_plan.go:283-331 | read off the text: a file is rewritten exactly when it is one line of the prefix and a value without NUL and, for a forward pointer, the value led to the target from the old place; it is kept when the value still leads there, not through the moving directory if forward and relative if not, and otherwise carries the target or the way to it |
| PointerImage.ImageReadsBackExactly | internal/feature_rename_plan.go:283-331 | a kept, an absolute and a relative image read back from the new base as exactly the target, with the file's line ending and the value's style, if and only if the value's last character is not mistaken for part of the ending |
| PointerImage.ImageIsMinimal | internal/feature_rename_plan.go:283-331 | a relative spelling that is kept is kept byte for byte |
| PointerImage.LineReadsBack | internal/feature_rename_state.go:445-456 | a written line is read with the value and the ending it was written with |
| PointerImage.LineReadsBackExactly | internal/feature_rename_state.go:445-456 | a line of any absolute or relative value gives the same place if and only if its end is not mistaken: a value with its last characters lost never names the same place |
| PointerImage.MisreadImage | internal/feature_rename_plan.go:283-331 | a pointer and a clean target that are rewritten without complaint into an image that is misread |
| PointerImage.ShorterNamesElsewhere | internal/feature_rename_plan.go:283-331 | a value without its last characters, from the same base, is another place |
| RootResolution.Resolve | internal/feature_rename_roots.go:33-118 | terminates; succeeds exactly when POSIX resolution does within forty links and gives its physical answer; one record for each link followed, none exactly when the spelling is physical itself; a raw walk of the spelling over these records reaches the same directory |
| RootResolution.ResolutionRules | internal/feature_rename_roots.go:33-118 | what each kind of part does: a link's target is read in front of what is left, from the root directory if absolute and from the directory that holds the link if relative |
| RootResolution.PosixIsLexical | internal/feature_rename_roots.go:33-118 | where there are no links, resolving a path is cleaning it |
| RootResolution.PosixPhysical | internal/feature_rename_roots.go:33-118 | resolution from a physical place ends at a physical place |
| RootResolution.PosixMonotone | internal/feature_rename_roots.go:33-118 | a larger follow bound changes no answer |
| RootResolution.PosixConcat | internal/feature_rename_roots.go:33-118 | a path may be read in two stretches |
| RootResolution.ResolvedAgain | internal/feature_rename_roots.go:120-133 | resolving a result again returns it and follows nothing |
| RootResolution.RawDirectoryBinding | internal/feature_rename_roots.go:241-299 | the inspecting raw walk computes the specified walk over recorded links outside the moving roots, an absolute value from the root directory whatever the base |
| RootResolution.RawRules | internal/feature_rename_roots.go:241-299 | what each kind of part does there: a name inside a moving directory, a missing one and a link without a record are refused |
| RootResolution.RawFollows | internal/feature_rename_roots.go:241-299 | a place on record leads where its last record says, unless that is in a moving directory |
| RootResolution.RawIsPosix | internal/feature_rename_roots.go:241-299 | whenever the raw walk succeeds it gives the place POSIX resolution gives |
| RootResolution.PosixIsRaw | internal/feature_rename_roots.go:241-299 | with every link recorded and nothing moving, the raw walk succeeds wherever resolution does |
| RootResolution.RawAvoidsMoving | internal/feature_rename_roots.go:241-299 | a raw walk that starts outside the moving directories ends outside them |
| RootResolution.RawIsPhysical | internal/feature_rename_roots.go:241-299 | from a physical base its answer is physical |
| CheckoutPlan.TopoSort | internal/stack.go:257-301 | for every stack: success if and only if no set of entries is based on itself and only roots share a name; then every place of the stack once, bases first, roots in stack order, the children of an earlier base before those of a later one, siblings in stack order, each place shown as the last entry of its name |
| CheckoutPlan.ShowsItself | internal/stack.go:257-301 | with distinct names each entry is shown as itself, so the result is a reordering with bases first |
| CheckoutPlan.OrderUnique | internal/stack.go:257-301 | a stack has only one such order, so the sort is determined |
| CheckoutPlan.OrderedHasNoKnot | internal/stack.go:257-301 | a stack with such an order has no cycle |
| CheckoutPlan.Find | internal/stack.go:65-72 | found means an entry of that name, not found means there is none |
| CheckoutPlan.BuildCheckoutPlan | internal/checkout_sync.go:1052-1094 | succeeds exactly when every planned base and branch resolves, and resolves each base as the plan says; the plan has one entry for each place of the order that is in scope |
| CheckoutPlan.PlansExactly | internal/checkout_sync.go:1052-1116 | a plan takes up, in order, exactly the entries that are neither archived nor without a base nor out of scope, each with its Git branch and the Git branch of the first entry its base names, or the base itself |
| CheckoutPlan.PlanOrderExact | internal/checkout_sync.go:1096-1116 | a plan of a sorted stack has every base before its entry if and only if no literal base names another entry's Git branch |
| CheckoutPlan.LiteralAliasExists | internal/checkout_sync.go:1096-1116 | such a stack exists and sorts without complaint |
| CheckoutSync.OperatorKeepsInv | internal/checkout_sync.go:1698-1863 | what the operator may do between invocations keeps the invariant |
| CheckoutSync.WholeStackDescends | internal/checkout_sync.go:2428-2437 | in a finished stack every branch contains the final tip of every branch under it, and the recorded last bases are these tips |
| CheckoutSync.AncestorTransitive | internal/sync_cutoff.go:525-559 | ancestry composes along the stack |
| CheckoutSync.AncestorIsPath | internal/sync_cutoff.go:525-559 | a commit is an ancestor exactly when a way of parents leads down to it |
| CheckoutSync.PersistedBookkeeping | internal/checkout_sync.go:2006-2087 | in every persisted state the completed entries are exactly those before the current one, active stages have a current entry, final stages have none left |
| CheckoutSync.SwitchedArmExact | internal/checkout_sync.go:2089-2112 | the switched arm keeps the invariant, whatever commit on top of the destination the rebase makes of HEAD's branch, if and only if HEAD's branch is no base in use |
| CheckoutSync.SwitchedWindowBreaksDescent | internal/checkout_sync.go:2089-2112 | in every state of the window some rebase onto the destination leaves the second branch off its base, with every later ancestry check passing |
| CheckoutSync.ForeignRebaseConflictExact | internal/checkout_sync.go:2067-2076 | recording somebody else's rebase as a conflict keeps the invariant if and only if there is a current entry, its base was resolved and stayed, and the rebased branch is no base in use |
| CheckoutSync.StillOnTrack | internal/checkout_sync.go:2201-2315 | moving the current entry's branch disturbs no completed entry |
| CheckoutSyncRun.Run.Save | internal/checkout_sync.go:2006-2020 | the file holds the old or the new transaction, and the new one on success |
| CheckoutSyncRun.Run.BeginAction | internal/sync_transaction.go:996-1098 | refuses while an action is pending; on success branch and images are recorded before the action |
| CheckoutSyncRun.Run.CompleteAction | internal/sync_transaction.go:1109-1227 | closes an action, durably, only when no other branch moved, and leaves everything as it is while a rebase is in progress |
| CheckoutSyncRun.Run.DoRebase | internal/checkout_sync.go:2317-2380 | a rebase starts only after the file says so and moves HEAD's branch only; success is recorded as rebased with none in progress |
| CheckoutSyncRun.Run.ProcessBranch | internal/checkout_sync.go:2201-2315 | success means the branch contains its base's tip resolved now, validated if asked, with no action open and no other branch moved; where only a rebase or a validation fails, the file says which and a rebase in progress keeps its action pending |
| CheckoutSyncRun.Run.Advance | internal/checkout_sync.go:2006-2020 | exactly the current entry is completed, the file says so on success, and every fixed base stays |
| CheckoutSyncRun.Run.Execute | internal/checkout_sync.go:2006-2020 | keeps the invariant through every failure; success means finished with HEAD on the original branch, which a clean stack reaches; only the plan's branches and last bases change, and nothing is pushed unasked; where only rebases, validations and pushes fail, it stops where the file says it did |
| CheckoutSyncRun.Run.VerifyAll | internal/sync_cutoff.go:525-559 | success means every branch descends from its destination |
| CheckoutSyncRun.Run.Destinations | internal/checkout_sync.go:2384-2437 | the last bases to record are the verified destinations |
| CheckoutSyncRun.Run.RecordDestinations | internal/checkout_sync.go:2384-2437 | recording them moves no branch and keeps the invariant, also when the write is lost |
| CheckoutSyncRun.Run.Restore | internal/checkout_sync.go:2603-2610 | success means HEAD is back on the original branch and the file is up to date |
| CheckoutSyncRun.Run.Finalize | internal/checkout_sync.go:2384-2525 | success means the outcome holds: descent, recorded bases, validation, restored HEAD, pushes |
| CheckoutSyncRun.Run.PublishAll | internal/checkout_sync.go:2437-2525 | success means every entry is recorded as published |
| CheckoutSyncRun.Run.PublishOne | internal/sync_transaction.go:1608-1703 | pushes only an entry not recorded as published; success means its final tip was accepted and the file records it before the next |
| CheckoutSyncRun.Run.GitPush | internal/sync_transaction.go:1654-1719 | each attempt is of an entry the file does not record as published |
| CheckoutSyncRun.Run.FinalizeCleanup | internal/checkout_sync.go:2527-2599 | deletes the transaction only when every entry is done and, if asked, pushed |
| CheckoutSyncRun.Run.Complete | internal/sync_transaction.go:2339-2357 | removal of a cleaning transaction finishes with the full outcome |
| CheckoutSyncRun.Run.CleanIsDone | internal/checkout_sync.go:2527-2599 | a transaction in its cleanup phase has the full outcome already |
| CheckoutSyncRun.Run.ResumeFromSwitched | internal/checkout_sync.go:2089-2112 | keeps the invariant when HEAD's branch is no base in use; succeeds from the current entry's branch |
| CheckoutSyncRun.Run.ResumeFromRebased | internal/checkout_sync.go:2114-2159 | as `Execute`, from a rebased entry |
| CheckoutSyncRun.Run.ResumeFromValidating | internal/checkout_sync.go:2161-2181 | as `Execute`, from a validating entry, whose ancestry is not looked at again |
| CheckoutSyncRun.Run.ResumeFromConflict | internal/checkout_sync.go:2022-2087 | a resolved conflict is adopted only when the branch contains its destination |
| CheckoutSyncRun.Run.ResumeFromRestoring | internal/checkout_sync.go:2183-2197 | restoration and publication resume to the same outcome |
| CheckoutSyncRun.Run.Resume | internal/checkout_sync.go:2022-2087 | every stage resumes within the invariant, and succeeds when that stage's conditions hold |
| CheckoutSyncRun.Run.Reconcile | internal/sync_transaction.go:1378-1409 | an action that moved nothing is tried again, one that moved its branch is adopted with its tip recorded, one that moved another branch is refused |
| CheckoutSyncRun.Run.Continue | internal/checkout_sync.go:1698-1863 | a new process keeps the invariant from any persisted state outside the switched window; success means finished; over a rebase in progress it changes nothing but the recorded stage, to conflict; where only rebases, validations and pushes fail, it finishes or stops where the file says it did |
| CheckoutSyncRun.Run.Begin | internal/checkout_sync.go:1357-1658 | a new run refuses over an unfinished one; success means finished with HEAD back, or nothing to do; otherwise as `Execute` |
| CheckoutSyncRun.Run.Drive | internal/checkout_sync.go:1357-1863 | any history of runs, each from bases of its own, continuations, deaths and operator steps keeps the invariant, so a finished run has its outcome |
| CheckoutSyncRun.ReachWindow | internal/checkout_sync.go:2089-2112 | a run of the executor from a planned stack, stopped before its second switch, and a second process stopped after it closed the pending action, end in the window |
| MutationLock.RunKeepsInv | internal/checkout_sync.go:386-691 | every history of processes creating, judging, taking over, saving state, closing and dying keeps the invariant |
| MutationLock.OneHolder | internal/checkout_sync.go:600-691 | at most one live process holds the lock, and the file names it |
| MutationLock.FreshAcquireFindsNothing | internal/checkout_sync.go:600-635 | a fresh acquisition succeeds only with no recoverable state and no holder |
| MutationLock.AccountedExactly | internal/reparent_exec.go:5952-5988 | over every history: recoverable files, ended or not, are of one feature and the holder's own throughout if and only if each save of a reparent that gave up the lock finds its file there, or nothing foreign |
| MutationLock.StepAccounted | internal/checkout_sync.go:487-595 | no step but such a save can leave a recoverable file unaccounted for |
| MutationLock.StepKeepsUnfinished | internal/checkout_sync.go:487-595 | every step keeps unfinished state of one feature and, under the lock, the holder's |
| MutationLock.HolderOwnsAllState | internal/checkout_sync.go:487-595 | over every history, while the lock is held every unfinished state is the holder's own operation's: its own file or, for a reparent, its feature's checkout sync; where late saves are timely so is every recoverable file |
| MutationLock.OrderlyOwnership | internal/reparent_exec.go:6082-6113 | where recoveries of a reparent do not overlap, every recoverable file is accounted for; a closing reparent finds its file and nobody at the lock; a reparent's checkout sync never stands without its own file |
| MutationLock.StaleRecoveryMixes | internal/reparent_exec.go:5952-5988 | a history of two overlapping recoveries after which the file of an ended reparent lies under another feature's lock, beside the only unfinished state |
| MutationLock.StateOfOneFeature | internal/checkout_sync.go:487-541 | over every history unfinished state never belongs to two features; where late saves are timely no recoverable file does |
| MutationLock.TakeoverIdentity | internal/checkout_sync.go:639-676 | a takeover removed a dead owner's claim, and a recovery only the same token, feature, operation and state path |
| MutationLock.ReleaseFrees | internal/checkout_sync.go:678-690 | giving the lock back frees it and changes nothing else, and so does a reparent that closes |
| MutationLock.NextInLine | internal/checkout_sync.go:600-690 | after a release an undisturbed fresh acquisition holds the lock if and only if nothing recoverable is left |
| MutationLock.GivingUp | internal/checkout_sync.go:386-691 | a failed write takes the lock file along; any other error, a leaving command and a death leave it as it is |
| MutationLock.InterferenceGivesUp | internal/checkout_sync.go:386-676 | an acquisition that meets a lock file it cannot read, did not judge or had made room for gives up without touching it, and so does a fresh one that finds the file gone, where a recovery goes on |
| MutationLock.WholeOperation | internal/checkout_sync.go:600-691 | an undisturbed operation that is no reparent leaves the workspace as it was |
| MutationLock.WholeReparent | internal/reparent_exec.go:5952-5988 | so does a reparent, through its own file and its feature's checkout sync; until its file is gone nobody else gets the lock |
| MutationLock.InterruptedOperation | internal/checkout_sync.go:600-676 | an operation whose process dies bars everybody but its own recovery, which takes over and can leave the workspace as it was |
| MutationLock.RecoveryFindsItsOwn | internal/checkout_sync.go:639-676 | over a free lock a recovery succeeds exactly when every recoverable file is its own, and changes nothing otherwise |
| MutationLock.RecoveryNeedsIdentity | internal/checkout_sync.go:639-676 | token, feature, operation and state path all have to agree, and the owner has to be dead |
| MutationLock.OrphanTakenOver | internal/checkout_sync.go:600-635 | a dead owner's lock falls to an undisturbed fresh acquisition if and only if no recoverable file is left |
| MutationLock.RecoveryTakesOver | internal/checkout_sync.go:639-676 | and to a recovery if and only if the owner's identity matches and every recoverable file is its own |
| MutationLock.UnwrittenLockStays | internal/checkout_sync.go:386-415 | a lock whose creator died or gave up before writing it is never held again |
| MutationLock.LockAbandoned | internal/checkout_sync.go:386-415 | a start, a request, one step and a death lead there |
| CommandSession.RecordCoversEffects | internal/command_session.go:286-430 | in every reachable state the session's branch or links in the checkout mean that record and lock both exist |
| CommandSession.OutsideKeepsInv | internal/command_session.go:286-430 | what others do to branches, tree and links keeps the invariant, during a session, over a torn record and between sessions |
| CommandSession.CloseNeedsStarted | internal/command_session.go:494-618 | a close accepts what the opening process would undo if and only if the branch and all links were in place |
| CommandSession.StrandedRecord | internal/command_session.go:494-618 | the record of a session that never switched is refused by every close |
| CommandSession.Checkout.CreateRecord | internal/command_session.go:224-255 | the record is absent, torn or whole; a record is never replaced |
| CommandSession.Checkout.Open | internal/command_session.go:286-430 | success leaves no record, no lock, no link and HEAD where it was, and a clean checkout with distinct links reaches it; where one thing goes wrong, a session given up before its record or undone before its command leaves as little, and one kept for inspection has either none of its effects or all of them |
| CommandSession.Checkout.Activate | internal/command_session.go:286-430 | success means HEAD on the session's branch with every link in place |
| CommandSession.Checkout.MayRestore | internal/command_session.go:494-585 | the checks accept exactly a restorable checkout |
| CommandSession.Checkout.RemoveLinks | internal/command_session.go:494-585 | success means no link is left |
| CommandSession.Checkout.SwitchBack | internal/command_session.go:494-585 | success means HEAD on the original branch |
| CommandSession.Checkout.RemoveRecord | internal/command_session.go:494-585 | the record goes only with a clean tree on the original branch, at its recorded HEAD when the branches differ |
| CommandSession.Checkout.Finish | internal/command_session.go:494-585 | an unrestorable checkout is left exactly as it is; success leaves nothing behind, the lock released after the record |
| CommandSession.Checkout.Close | internal/command_session.go:587-618 | succeeds only on a recorded session, changes nothing when it cannot be restored, and succeeds undisturbed when it can |
| CommandSession.Checkout.Drive | internal/command_session.go:286-618 | any history of commands, closes, deaths and outside changes at any moment keeps the invariant |
| Tlv.GetPutUint | internal/rebase_plan_fingerprint.go:39-111 | a written integer reads back modulo its width |
| Tlv.ParseElementInverse | internal/rebase_plan_fingerprint.go:39-148 | decoding undoes encoding below 2^32 bytes, whatever follows: null, zero, empty string and empty array stay apart |
| Tlv.ParseFieldsInverse | internal/rebase_plan_fingerprint.go:64-148 | a structure's bytes decode to its fields |
| Tlv.ParseItemsInverse | internal/rebase_plan_fingerprint.go:134-148 | an array's bytes decode to its items |
| Tlv.LengthWrapCollides | internal/rebase_plan_fingerprint.go:39-47 | at 2^32 bytes two different arrays share one encoding |
| PlanFingerprintReading.PutUintDigits | internal/rebase_plan_fingerprint.go:39-111 | integers are written most significant byte first |
| PlanFingerprintReading.ElementBytes | internal/rebase_plan_fingerprint.go:39-148 | each kind of value starts with its own byte and its length in four |
| PlanFingerprintReading.RowsOfBytes | internal/rebase_plan_fingerprint.go:64-148 | fields follow in order, each after the two bytes of its number, and so do items |
| Tlv.Encoder.WriteField | internal/rebase_plan_fingerprint.go:64-73 | the buffer is always the encoding of the fields written so far, and gains exactly this one |
| Tlv.Encoder.WriteUintPtr | internal/rebase_plan_fingerprint.go:103-111 | an absent number is null, never zero |
| Tlv.Encoder.WriteArrayPtr | internal/rebase_plan_fingerprint.go:142-148 | an absent array is null, never empty |
| PlanFingerprint.EncodeEntry | internal/rebase_plan_fingerprint.go:418-470 | the encoder's bytes are the entry's forty-five fields |
| PlanFingerprint.EncodeDocument | internal/rebase_plan_fingerprint.go:334-376 | the encoder's bytes are the document's fields, rows included |
| PlanFingerprint.PlanFingerprintPreimage | internal/rebase_plan_fingerprint.go:322-332 | the pre-image is the fixed header followed by the document |
| PlanFingerprint.PreimageDecodes | internal/rebase_plan_fingerprint.go:322-376 | after sixteen fixed bytes the pre-image parses as one structure of the document's fields with nothing after it |
| PlanFingerprintReading.PreimageReads | internal/rebase_plan_fingerprint.go:303-488 | the sixteen fixed bytes are the prefix and versions 1 and 4; then every numbered field of the document, of its repositories, push targets, collateral references and entries holds the member it is for |
| PlanFingerprint.PreimageBindsExactly | internal/rebase_plan_fingerprint.go:322-488 | equal pre-images if and only if the plans agree on every bound member |
| PlanFingerprint.DocumentFieldsInjective | internal/rebase_plan_fingerprint.go:334-488 | the fields determine the bound members, and nothing else enters them |
| PlanFingerprint.EntryFieldsBound | internal/rebase_plan_fingerprint.go:418-470 | an entry's unbound members do not enter its fields |
| PlanFingerprint.EncodeRevalidationEntry | internal/rebase_plan_fingerprint.go:535-565 | the encoder's bytes are the entry's revalidation fields |
| PlanFingerprintReading.RevalidationReads | internal/rebase_plan_fingerprint.go:535-565 | every numbered field of the revalidation bytes holds the fact it is for |
| PlanFingerprint.RevalidationBindsExactly | internal/rebase_plan_fingerprint.go:535-565 | equal revalidation bytes if and only if every drifting fact agrees |
| PlanFingerprint.DriftIsCaughtByRevalidationOnly | internal/rebase_plan_fingerprint.go:535-565 | drift of the first candidate or of a rebase in progress leaves the token standing and changes the revalidation bytes |
| PlanGuard.LessOrder | internal/rebase_planner.go:1352-1379 | the published order of blockers is a strict total order |
| PlanGuard.PublishedUnique | internal/rebase_planner.go:1352-1379 | a set of blockers has one published list only |
| PlanGuard.OrderedPublished | internal/rebase_planner.go:1352-1379 | sorting keeps exactly the blockers given, each once, in that order |
| PlanGuard.PublishedSorted | internal/rebase_planner.go:1352-1400 | in a published list kinds come in precedence, of one kind the document's own first, then by entry and sentence |
| PlanGuard.Rank | internal/rebase_plan.go:1016-1047 | a kind's rank is its place in the closed list |
| PlanSummary.BuildSummary | internal/rebase_plan_build.go:2920-2995 | the loop computes all thirteen members: the counts, the largest count, the lower bound, the total exactly when nothing is unknown, and the collateral references |
| PlanSummary.NumberCounts | internal/rebase_plan_build.go:2920-2995 | each count is the number of entries that bear its mark |
| PlanSummary.SummaryCounts | internal/rebase_plan_build.go:2920-2995 | the counts are the numbers of deferred, conditional, unknown, exposed and unclear entries |
| PlanSummary.UnownedCounts | internal/rebase_plan_build.go:2920-2995 | and of references no stack owns |
| PlanSummary.SortedByRepository | internal/rebase_plan_build.go:2920-2995 | references are published by repository and, within one, by name |
| PlanSummary.TextLessExactly | internal/rebase_plan_build.go:2920-2995 | texts are compared byte by byte, a beginning before its continuations |
| PlanSummary.CollectRefs | internal/rebase_plan_build.go:2920-2995 | one reference for each repository and name any entry lists, the last one given, sorted |
| PlanSummary.SortRefs | internal/rebase_plan_build.go:2920-2995 | the references of a map, each once, in key order |
| PlanSummary.KeyOrder | internal/rebase_plan_build.go:2920-2995 | that order is a strict total order |
| PlanGuard.GuardEvaluationRows | internal/rebase_plan_build.go:2687-2788 | one row for each entry and one total, each when its limit is set |
| PlanGuard.RowsSay | internal/rebase_plan_build.go:2687-2788 | each row claims its entry's own count, or the sum of all known ones, and none where it is unknown |
| PlanGuard.EntryVerdictExact | internal/rebase_plan_build.go:2711-2739 | exceeded if and only if every completion of the unknown counts exceeds, within-limit if and only if every one fits, unknown otherwise |
| PlanGuard.TotalVerdictExact | internal/rebase_plan_build.go:2750-2788 | the same for the sum over all entries |
| PlanGuard.GuardWouldRefuse | internal/rebase_plan_build.go:2797-2807 | true exactly when some row refuses |
| PlanGuard.WouldRefuseMeansBlocked | internal/rebase_plan_build.go:2797-2863 | before any waiver, would-refuse if and only if an indeterminate-entry or limit blocker is produced |
| PlanGuard.RefusalIsPublished | internal/rebase_plan_build.go:3532-3710 | a document no token was given for says it would refuse if and only if a guard blocker is among those it publishes |
| PlanGuard.EntryOverLimit | internal/rebase_plan_build.go:3532-3710 | without an accepted token, an entry is reported as over its limit exactly when its known count is |
| PlanGuard.TotalOverLimit | internal/rebase_plan_build.go:3532-3710 | the run as over the total limit exactly when the known counts alone are |
| PlanGuard.EntryUnresolved | internal/rebase_plan_build.go:3532-3710 | an entry as unresolvable exactly when a limit is set and its count is unknown for good |
| PlanGuard.IndeterminateEntryBlockers | internal/rebase_plan_build.go:2815-2835 | one blocker for each unresolvable entry, in order, when a limit is set |
| PlanGuard.LimitExceededBlockers | internal/rebase_plan_build.go:2843-2863 | one blocker for each exceeded row, in order, with the sentence published |
| PlanGuard.ApplyApprovalWaiver | internal/rebase_plan_build.go:3069-3094 | an accepted approval rewrites and reports exactly the exceeded rows |
| PlanGuard.ComputeRunnable | internal/rebase_plan_build.go:2892-2910 | runnable exactly when no blocker ranks at or above the selection hazard |
| PlanGuard.ApprovalReported | internal/rebase_plan_build.go:3532-3710 | which of the three blockers about the approval itself are raised, and when |
| PlanGuard.BuildRebasePlan | internal/rebase_plan_build.go:3532-3710 | the document has the summary, rows and published blockers specified, the first of them as its refusal; a token exactly for work under a limit with encodable texts; runnable exactly when no blocker up to the selection hazard is published; push and restoration are judged exactly where wanted and known, and are executable exactly when nothing at all blocks them |
| PlanGuard.TokenIsSelfCertifying | internal/rebase_plan_build.go:3532-3710 | fingerprinting the finished plan gives the token minted from the draft, whatever the outcome |
| PlanGuard.TokenAcceptedExactly | internal/rebase_plan_build.go:3532-3710 | a token minted for one document is accepted for another if and only if they agree on every bound member |
| PlanGuard.ApprovalWaivesOnlyLimits | internal/rebase_plan_build.go:3069-3094 | the own token leaves runnable unchanged and removes exactly the limit blockers; only unresolvable rows still refuse |
| PlanGuard.OtherTokenIsRefused | internal/rebase_plan_build.go:2870-2875 | any other token waives nothing and adds exactly the mismatch blocker |
| PlanGuard.OtherTokenKeepsRunnable | internal/rebase_plan_build.go:2892-2910 | and stops no run that would have started |
| WorktreeInventory.Parse | internal/agent_status.go:640-753 | the one-pass parser computes the meaning of the listing's blocks, blank being any Unicode white space |
| WorktreeInventory.FailsClosed | internal/agent_status.go:640-753 | available if and only if every block is well formed and no path repeats; otherwise empty |
| WorktreeInventory.MeaningSays | internal/agent_status.go:640-753 | available exactly when no block fails, each has a worktree line and no path repeats; then one record for each block, saying what the block says, and the three tables agree with the records: prunable branches, the paths of the others, and records by path |
| WorktreeInventory.BlockReads | internal/agent_status.go:640-753 | a block fails exactly on a malformed worktree, HEAD or branch line or when it is both detached and on a branch; otherwise the last line of each kind counts |
| WorktreeInventory.BlocksPart | internal/agent_status.go:640-753 | a line of white space parts the blocks before it from those behind it, and other lines part none |
| WorktreeInventory.LinesTrimmed | internal/agent_status.go:640-753 | returns at the end of a line are no part of it |
| WorktreeInventory.PrintReads | internal/agent_status.go:640-753 | a printed record is read back |
| WorktreeInventory.BlocksOfText | internal/agent_status.go:640-753 | blank lines separate blocks and nothing else does |
| WorktreeInventory.ParseOfPrint | internal/agent_status.go:640-753 | parsing the printed form of any well-formed listing returns it, in order, each record found by its path |
| WorktreeInventory.Exclude | internal/agent_status.go:758-791 | drops exactly the records of scratch paths from an available inventory, and its tables agree with the rest |
| WorktreeInventory.ExcludeCommutes | internal/agent_status.go:758-791 | dropping after parsing equals parsing the listing without those blocks |
| StatusReport.VerifyTmuxName | internal/agent_status.go:1212-1239 | present if and only if tmux answers and runs a session of that name with a pane at or below the directory; unknown, with an issue, if and only if it failed or shows no such pane; nothing otherwise |
| StatusReport.Recompute | internal/agent_status.go:2242-2295 | the rollup loops compute the bottom-up rollup of the document |
| StatusReport.FeatureRollupHonest | internal/agent_status.go:799-830 | with owned evidence a feature and its entries never read stale or unknown as anything but needing attention |
| StatusReport.OwnedIsHonest | internal/agent_status.go:2242-2295 | owned evidence makes the whole document honest, the workspace line included |
| StatusReport.Builder.AppendBranchTmux | internal/agent_status.go:2126-2148 | a branch's tmux observation is appended with exactly the issue that owns it, if it needs one |
| StatusReport.Builder.AppendDirectSessions | internal/agent_status.go:2152-2230 | each direct record is appended in order, with one issue for each that nobody can vouch for and one when the records cannot be read |
| StatusReport.Builder.BuildFeatureTmux | internal/agent_status.go:1915-1937 | the feature's tmux observation comes with exactly the issue of the feature that owns it |
| StatusReport.Builder.BuildFeature | internal/agent_status.go:1510-1601 | the feature shows exactly what its evidence calls for and raises exactly those issues, in order: its stack's, its synchronisation's, its record tree's, its runtime's, each entry's, each stray record directory's; every unverifiable observation is owned |
| StatusReport.Builder.ProjectSession | internal/agent_status.go:1257-1403 | the session's presence is what its record says, and is covered by the workspace or pending attribution; a record that cannot be trusted is never attributable; the issues are exactly the lock's, the record's and its informational ones |
| StatusReport.Builder.EmitDirty | internal/agent_status.go:1440-1452 | a dirty checkout is one workspace issue, a warning exactly while a session is shown |
| StatusReport.Builder.EmitTmuxIssue | internal/agent_status.go:1185-1205 | exactly one workspace issue for a tmux that is missing, a warning when a session depends on it, and one warning when its sessions or panes could not be listed; a tmux without a server raises none |
| StatusReport.Builder.AttributeSession | internal/agent_status.go:1461-1502 | the session goes to the first entry it names, with an issue there when unverifiable; one that names none, or is off scope and unverifiable, leaves a workspace warning; nothing else changes |
| StatusReport.Builder.Build | internal/agent_status.go:925-1100 | for every combination of evidence, global or scoped: no level whose presence is stale or unknown reads idle or active; every entry, feature and the workspace show exactly what their own evidence shows; every level reads what its own issues and the levels below say; an issue is raised exactly when it was handed in or the evidence calls for it |
| StatusReport.AssembledShows | internal/agent_status.go:1461-2230 | an entry shows a presence exactly when one of its own observations gives it: its tmux session, one of its direct records, or the checkout session that names it first |
| StatusReport.AssembledIssues | internal/agent_status.go:925-2230 | which warnings and notes the evidence calls for at each level, and no others |
| StatusReport.RolledReads | internal/agent_status.go:799-830 | a level reads active exactly when it is present, needs nothing itself and nothing below it does |
| StatusReport.FilterFeature | internal/agent_status.go:2392-2419 | refuses exactly an unknown feature, and otherwise keeps exactly the features of that name, the issues of the workspace and of that feature, and the workspace's session and presence, with its attention rolled up again |
| StatusReport.FilterKeepsRollups | internal/agent_status.go:2392-2419 | rolling a kept feature up again from the kept issues changes nothing |
| StatusReport.FilteredHonestExactly | internal/agent_status.go:2392-2419 | the filtered workspace line is honest if and only if it is verifiable, warned itself, or the kept feature needs attention |
| StatusReport.FilteredCanReadIdle | internal/agent_status.go:2392-2419 | the builder makes an honest document whose filtered form shows a stale workspace as idle |

## Left out

- Power loss inside a rename: a rename of one directory entry is taken to be atomic, and kept or lost as a whole.
- Object identity: inode, device, mode and hash checks of the rename appear as the classification they lead to; edits made from outside while a rename is unfinished are not modelled.
- The creation of a rename's journal directory, the guard on `.journals`, partly created journals and lifecycle locks.
- The Git inventory of a rename plan (`inspectWorktree`, `verifyFinalGit`), session checks and registry validation.
- SHA-256: a token stands for the bytes hashed, which is to take the hash as injective.
- Locking order by inode name, lock-file types and the pinned directory handles of admission.
- Legacy checkout sync without a transaction, `sync --abort`, dry runs, and the wording of failures.
- Rebases that the run did not start, and operator changes to branches other than the current entry's: the sync theorems hold without them.
- The pre-rebase checks of a sync (dirty tree, cutoffs, hooks) are steps that may refuse at any time.
- `removeCheckoutMutationLockIfUnchanged` is one atomic step, and process identifiers are not used twice.
- Additional state directories of the mutation lock: one set of recoverable state files stands for all of them.
- A state file's feature and operation, which the code reads off its name, are members of the mutation lock's `StateFile`.
- The owner that a reparent's state file records and its recovery looks at: that recoveries do not overlap is a condition on the history.
- PlanGuard.EntryVerdictExact: states the verdict for natural limits and measured entries, where an unknown entry carries no count.
- PlanGuard.TotalVerdictExact: the same restriction.
- The collectors that fill a plan's members (`finishEntry`, `buildPush` targets, gates): a draft with those members is the starting point.
- PointerImage.RewritePointer: root aliases are not part of the rewriting; the walk over recorded aliases is in RootResolution.
- RootResolution.Resolve: on a file system nobody changes meanwhile; directory evidence and alias re-verification are not part of this model.
- WorktreeInventory.Parse: paths are taken as already normalised.
- Tmux transport, exclude entries and reclaiming of stale locks in a command session; outside changes inside one finish.
- Issue codes, messages, counters and probe budgets of the status document; which header, synchronisation, materialisation and ancestry issues arise is arbitrary, and an entry's come before its runtime issues.
- Configuration, hooks, injected links, export, human formatting and the command line.
