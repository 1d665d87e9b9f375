# AFlow protocol model

A Dafny model of the durable protocols behind AFlow, a controller that drives coding agents
through configured workflows, with proofs of what those protocols promise.

* **Configuration pair** (`Base64`, `PairRecord`, `PairStorage`, `PairRecovery`, `PairRegister`,
  `ConfigPair`).
  `aflow.toml` and `workflows.toml` change together through a write-ahead record. The directory has
  a live layer and, name by name, the values a power loss may leave; every file operation may fail
  with an OSError or be the last thing its process does. Commit, rollback, cleanup and recovery are
  methods over that directory. They refine a compare-and-swap register: `Session` shows that every
  run of saves, loads and outages is a history of the register, and the lemmas of `PairRegister` say
  what such a history means for a user.
* **Exclusive-resource broker** (`ResourceJournal`, `ResourceOrder`, `ResourceValidity`,
  `ResourceDecisions`, `ResourceStore`, `ResourceWorld`, `ResourceAdmission`).
  `ExecutionResourceStore` reads, validates, changes and rewrites one journal per operation; each
  method equals a decision function on journals. `ResourceDecisions` says of each decision exactly
  when it succeeds and what it then does; the order lemmas speak about any run of decisions. `ResourceWorld` puts the journal among processes that
  start, fork, die, reuse PIDs and reboot, with reconcilers that sample without the lock. The
  admission loop runs against a script of what everybody else does meanwhile.
* **Budget boundaries** (`Conditions`, `BudgetResume`). The condition evaluator, ordered first-match
  routing, the controller's choice of the next plan, and the classifier that recomputes both from
  receipts, over chains of resumed runs.
* **Graph resolution** (`TeamGraph`, `Workflows`). Cycle reports of the team relation, the memoised
  workflow inheritance of the loader, and the lifecycle resolver the concierge keeps beside it.
* **Concierge drafts** (`ConciergeDrafts`, `ConciergeTicks`). The create intent recorded before a plan
  is requested, as a transition system of record files, and the tick as methods whose every effect
  is a step of that system.

`dafny verify dfyconfig.toml` checks the whole project.

## Assumptions

* sha256 is injective; a digest is its preimage, and a draft's claim is its repository, issue number
  and issue text. JSON text is a parsed value with a size.
* A file is synced before it is renamed into place, so a name never shows a partial file; a failed
  directory sync makes nothing durable.
* Locks exclude: methods of the pair, of the store and of a tick run one at a time.
* A provider is first spawned by a live controller whose lease reported the launch marked and did not
  complete it; `complete` is called when no process of the provider is left; a provider's processes
  share one group, the one the claim records if it records any; each look of a reconciliation, at the
  controller, the child or the group, is true when taken, with anything happening between looks; a process
  identity (pid, birth, boot) is never used twice. These are the guards of `ResourceWorld.Can`.
* Other controllers reconcile on sound evidence, so they never remove the claim of a live admission.
* Workflow loading has checked that targets are known and that names and conditions are not empty.

## Where a promise needs a condition

* Recovery converges through errors and process deaths from every recoverable directory, whatever
  wrote its record. A power loss can change the generation it aims at. Through any run of recoveries
  and power losses the goal is kept exactly when the storage is firm: every record a power loss may
  leave has the same target and accepts every document it may leave
  (`PairRecovery.RecoveryKeepsGoalExactly`, `ConfigPair.RecoverUntilCompleted`). A decided pair is
  firm, and an open save is firm exactly when its visible record is durable (`RegisterFirmExactly`);
  `UnsyncedMarkerIsLost` is the moment of every save at which it is not. Either way the result is a
  whole generation, and acknowledged or restored saves are not affected.
* `pair_revision` is not injective on all byte strings. Some other pair has the revision of a pair
  exactly when the text of this pair holds the separator at a second place
  (`PairRecord.RevisionCollidesExactly`, with an instance in `RevisionsCollideWithNul`); without NUL
  bytes in the first document it identifies the content.
* A true budget stop is rejected when another edge of the step repeats the condition text of the END
  edge it took (`BudgetResume.RepeatedConditionIsRejected`); `Resumable` is the exact condition.
* A retained re-prepare keeps the claim whose ticket is known, from this admission or, however much
  contention this one meets, from an earlier one, and a later lease is for that ticket
  (`Admit` with its `held` ticket, `Readmit`). A first admission whose every enqueue met contention
  has published no claim yet.
* `_resolve_workflow_lifecycle` mirrors the loader up to outer blanks: the loader trims every item and
  the concierge does not. On an accepted document they agree for all workflows exactly when the items
  in use are trimmed (`Workflows.ResolversAgreeExactly`; `BlankItemDisagrees` is a document on which
  they do not). Its docstring says a malformed list gives nothing; the code treats it as a missing
  one, and so does the model. The loader's alias-cycle error cannot occur, because an alias of an
  alias is rejected first.
* At-most-once creation needs the record files to read. Two events end it, and each is a misreading:
  a tick that cannot read every visible record of the issue saves a new intent, or a tick that cannot
  read a claim's file lets the planner write its workspace over the last record. Once an issue was
  requested, a step ends its protection exactly when it is one of the two
  (`ConciergeDrafts.ExposedExactly`), and a run can be continued from some moment, reading everything,
  to a second request exactly when one of the two happened in it (`RecreatedExactly`).
  `MisreadCreatesTwice` and `OverwrittenCreatesTwice` are one run for each.
* The durable status of a record goes back exactly when a workspace or a new intent lands on its file,
  again a misreading (`StatusTakenBackExactly`, `DurableStatusMovesForward`). The visible status can
  also go back by a power loss, exactly when it was not durable (`VisibleTakenBackExactly`,
  `PowerLossKeepsVisible`).

## Model

| member | source | states |
|---|---|---|
| Base64.EncodeLaws | aflow/config_pair.py:263-314 | encoding n bytes takes 4*ceil(n/3) characters (section 4 of RFC 4648) and strict decoding gives the bytes back |
| Base64.PackLength | aflow/config_pair.py:263-269 | the length law on symbols, by groups of three bytes |
| Base64.UnpackInvertsPack | aflow/config_pair.py:291-314 | strict decoding, padding only in the last group, inverts encoding on every byte string |
| Base64.ReadAllInvertsSpellAll | aflow/config_pair.py:291-314 | the alphabet is read back symbol by symbol |
| Base64.SpellsAlphabet | aflow/config_pair.py:263-269 | the digits are spelled by Table 1 of RFC 4648 and padding by `=` |
| Base64.ReadsExactly | aflow/config_pair.py:291-314 | a character is read as the one symbol it spells, and any other is refused |
| Base64.GroupHoldsBits | aflow/config_pair.py:263-269 | the symbols of a group hold the bits of its bytes, most significant first, filled up with zeros |
| Base64.GroupsFollow | aflow/config_pair.py:263-269 | whole groups are coded one after the other |
| Base64.UnpacksExactly | aflow/config_pair.py:291-314 | decoding accepts exactly whole groups with at most two padding symbols, at the end |
| Base64.GroupAgrees | aflow/config_pair.py:291-314 | what a group decodes to is coded by the same symbols, up to bits no byte takes |
| PairRecord.RevisionCollision | aflow/config_pair.py:99-106 | two pairs with one revision split the same bytes at two separators, and the longer first document holds a NUL |
| PairRecord.RevisionCollidesExactly | aflow/config_pair.py:99-106 | another pair with the revision of this one exists exactly when this pair's text holds the separator at a second place |
| PairRecord.RevisionIdentifiesContent | aflow/config_pair.py:99-106 | without NUL in the first documents equal revisions mean equal contents, missing counting as empty, and conversely |
| PairRecord.RevisionsCollideWithNul | aflow/config_pair.py:99-106 | two different pairs with one revision |
| PairRecord.RecordFits | aflow/config_pair.py:61-62 | four documents within the document limit give a record within the record limit |
| PairRecord.PayloadFits | aflow/config_pair.py:263-269 | the bound for one encoded payload |
| PairRecord.ParseEncodedDocument | aflow/config_pair.py:272-350 | one document's two generations are parsed back, a missing old one included |
| PairRecord.RecordRoundTrip | aflow/config_pair.py:272-350 | parsing an encoded record gives back the phase and both generations |
| PairRecord.DecodesExactly | aflow/config_pair.py:291-314 | a payload is accepted exactly when it is base64 text of bytes within the limit beside their own digest |
| PairRecord.PayloadRefusals | aflow/config_pair.py:306-314 | undecodable text, an oversized payload and another digest are each refused for that |
| PairRecord.ParsesDocumentExactly | aflow/config_pair.py:341-349 | one document is accepted exactly when both generations are, and there is no other field |
| PairRecord.ParsesRecordExactly | aflow/config_pair.py:317-350 | a record file is accepted, as this transaction, exactly when its text is within the limit and holds version 1, the phase and both documents of the transaction, and nothing else |
| PairStorage.PowerLossKeepsRegister | aflow/config_pair.py:385-396 | whatever subset of unsynced renames and unlinks survives, the register is the same |
| PairStorage.GoalExactly | aflow/config_pair.py:469-487 | recovery of a directory is not refused exactly when it has no record, or a readable one that covers both documents, and aims at the generation of the phase |
| PairStorage.RenamesMayBeLost | aflow/config_pair.py:385-396 | after a rename a power loss may leave the old name or the new one, after a sync only the new |
| PairStorage.NamesMix | aflow/config_pair.py:385-396 | names are lost or kept one by one |
| PairStorage.GoalIsAValue | aflow/config_pair.py:471-495 | a directory the protocol reaches is recoverable and recovery aims at the old or the new pair |
| PairStorage.RecordAims | aflow/config_pair.py:469-487 | a written record aims at the generation of its phase and accepts exactly the recorded documents |
| PairStorage.PowerLossKeepsGoal | aflow/config_pair.py:489-495 | a power loss keeps the generation recovery aims at exactly when the visible record is durable |
| PairStorage.InstallKeepsRegister | aflow/config_pair.py:504-509 | installing a target document is safe at any moment |
| PairStorage.InstallAnywhereKeepsRegister | aflow/config_pair.py:496-509 | installing and syncing a target document may be cut at any point |
| PairStorage.InstalledIsSettled | aflow/config_pair.py:509-513 | with both documents installed and synced the pair is decided before the record goes |
| PairStorage.RewriteKeepsUndecided | aflow/config_pair.py:582-585 | writing either record of an open commit keeps it open and moves its goal |
| PairStorage.PreparedRecordOpens | aflow/config_pair.py:653-656 | the prepared record changes nothing until it is durable and then opens the save |
| PairStorage.ReplaceKeepsUndecided | aflow/config_pair.py:660-665 | replacing a document of an open save leaves it open |
| PairStorage.DurableMarkerSettles | aflow/config_pair.py:666-671 | the durable committed marker decides the save |
| PairStorage.CleanupKeepsSettled | aflow/config_pair.py:685-699 | removing or rewriting the committed record never disturbs the acknowledged pair |
| PairStorage.CommittingRecord | aflow/config_pair.py:581-586 | the record a rollback finds is one of the two of this commit |
| PairRegister.SaveIsAStep | aflow/config_pair.py:653-705 | however the writing half ends, the save was one compare-and-swap step |
| PairRegister.DecidedValueStays | aflow/config_pair.py:600-705 | a decided pair stays until a save that passes its guard on it was acknowledged or left open; stale writers change nothing, even when they crash |
| PairRegister.AcknowledgedSaveIsRead | aflow/config_pair.py:600-705 | after an acknowledged save every load, conflict and guarded save sees that pair, through outages, failed saves and stale writers that die anywhere |
| PairRegister.RestoredSaveIsNeverRead | aflow/config_pair.py:575-591 | after "the previous pair was restored" all later loads give one pair, a value the register had before the save |
| PairRegister.ValuesAreWhole | aflow/config_pair.py:436-517 | every value the register may have is the start or one whole save |
| PairRegister.LoadsAreWhole | aflow/config.py:1490-1504 | no load returns a mixed pair |
| PairStorage.Disk.SetDocument | aflow/config_pair.py:353-382 | an atomic replacement or unlink takes effect whole, or not at all |
| PairStorage.Disk.Sync | aflow/config_pair.py:385-396 | a directory sync pins the live names or, when it fails, nothing |
| ConfigPair.CheckDocuments | aflow/config_pair.py:471-487 | accepts exactly when both current documents fit and are recorded generations |
| ConfigPair.WriteRecord | aflow/config_pair.py:399-406 | completion means the record is durable; otherwise it is absent, visible or durable |
| ConfigPair.InstallDocument | aflow/config_pair.py:496-509 | brings one document to its target and syncs, safe when cut anywhere |
| ConfigPair.InstallTarget | aflow/config_pair.py:489-511 | completion means the whole target generation is durable; a cut keeps the goal, and a firm storage firm |
| ConfigPair.RecoverPendingTransaction | aflow/config_pair.py:436-517 | completion leaves the goal and no record; a refused directory, one with third-party edits included, is untouched; from every recoverable directory any cut keeps the goal, and a firm storage firm; without faults it completes |
| ConfigPair.RecoverUntilCompleted | aflow/config_pair.py:436-517 | from every recoverable directory recovery interrupted any number of times ends where an uninterrupted one would; from a firm storage also through any power losses |
| PairRecovery.FirmExactly | aflow/config_pair.py:471-495 | every directory a power loss may leave is recoverable to the same pair exactly when each record it may leave agrees with each document it may leave |
| PairRecovery.ParsedFits | aflow/config_pair.py:291-350 | both generations of any record that parses are within the document limit |
| PairRecovery.MoveKeepsAim | aflow/config_pair.py:489-513 | every step of recovery keeps any recoverable directory recoverable and its goal |
| PairRecovery.MoveKeepsFirm | aflow/config_pair.py:489-513 | every step of recovery and every power loss keeps a firm storage firm and its goal |
| PairRecovery.RecoveryKeepsGoalExactly | aflow/config_pair.py:436-517 | all runs of recovery steps and power losses keep the goal exactly when the storage is firm |
| PairRecovery.RegisterFirmExactly | aflow/config_pair.py:653-671 | a decided pair is firm, an open save exactly when its visible record is durable |
| PairRecovery.UnsyncedMarkerIsLost | aflow/config_pair.py:668-671 | in every save a power loss between the committed marker's rename and its sync takes recovery back to the old pair |
| ConfigPair.ReestablishPrepared | aflow/config_pair.py:581-585 | a committed record that is only visible becomes a prepared one before the rollback, so the old pair is the goal |
| ConfigPair.RollbackPreCommit | aflow/config_pair.py:557-591 | completion decides the old pair and leaves its documents without a record, and without further faults it completes; any other end leaves it decided or the save open |
| ConfigPair.ReplaceDocuments | aflow/config_pair.py:660-666 | completion means both new documents are in place; a cut leaves the save open |
| ConfigPair.StageDocuments | aflow/config_pair.py:657-659 | staging touches no name of the pair |
| ConfigPair.WriteGeneration | aflow/config_pair.py:654-671 | completion means the new pair is decided; otherwise a rollback can decide the old one |
| ConfigPair.CompleteCleanup | aflow/config_pair.py:685-704 | cleanup keeps the acknowledged pair whatever fails; after at most one error the documents are durable and the record is gone or is the committed one |
| ConfigPair.SaveOver | aflow/config_pair.py:653-705 | acknowledged: the new pair is in place and decided; restored: the old one is, without a record; a script of at most one error and no death ends in one of the two, and one without faults in the first |
| ConfigPair.SaveGuarded | aflow/config_pair.py:645-705 | on the recovered pair: an unsupported size is declined and another revision a conflict, both untouched, and else the save is written, as one step of the register |
| ConfigPair.RecoverAndRead | aflow/config_pair.py:637-645 | recover first, then read the decided pair |
| ConfigPair.CommitConfigurationPair | aflow/config_pair.py:600-705 | one save is one step of the compare-and-swap register; oversize payloads and a third-party edit leave the directory as found; without faults the guard alone decides between acknowledgement and conflict; after at most one error a save is never left unfinished, and a restored one leaves exactly the recovered pair |
| ConfigPair.LoadPair | aflow/config.py:1490-1504 | one load is one step of the register, and without faults it returns the goal of recovery |
| ConfigPair.Serve | aflow/config_pair.py:147-180 | one operation under the lock, or one outage, is one register step |
| ConfigPair.Session | aflow/config_pair.py:147-180 | every run of operations and outages is a history of the register |
| ResourceValidity.ApplyKeepsValid | aflow/execution_resources.py:411-468 | every operation maps any journal that validates to one that validates |
| ResourceValidity.ValidRun | aflow/execution_resources.py:481-761 | over any run from a journal that validates every journal validates |
| ResourceValidity.EnqueueKeepsValid | aflow/execution_resources.py:481-519 | the new claim is apart from every claim of any valid journal |
| ResourceValidity.AcquireKeepsValid | aflow/execution_resources.py:521-557 | a grant moves one claim from the queue to the owner, whatever the order of the queue |
| ResourceValidity.CancelKeepsValid | aflow/execution_resources.py:559-590 | the same for cancel |
| ResourceValidity.OwnedKeepsValid | aflow/execution_resources.py:721-761 | the same for the owner transitions |
| ResourceValidity.ReclaimKeepsValid | aflow/execution_resources.py:690-717 | the same for the locked half of reconcile |
| ResourceValidity.ValidNeedNotBeOrdered | aflow/execution_resources.py:411-468 | a journal that validates although its queue is out of ticket order |
| ResourceOrder.OrderedIsValid | aflow/execution_resources.py:411-468 | reachable journals pass validation |
| ResourceOrder.ApplyKeepsOrdered | aflow/execution_resources.py:481-761 | on reachable journals every operation keeps tickets in order behind the owner, invocations distinct, a child bound only from running on |
| ResourceOrder.EnqueueKeepsOrdered | aflow/execution_resources.py:481-519 | the same for enqueue |
| ResourceOrder.AcquireTakesFirst | aflow/execution_resources.py:521-557 | a grant takes the first waiting claim of its own controller and reserves it |
| ResourceOrder.ReclaimKeepsOrdered | aflow/execution_resources.py:690-717 | the same for the locked half of reconcile |
| ResourceOrder.EveryWriteRaisesRevision | aflow/execution_resources.py:470-479 | every published journal has the next revision |
| ResourceOrder.RunIsOrdered | aflow/execution_resources.py:481-761 | every journal of every run is ordered and valid |
| ResourceOrder.RevisionNamesJournal | aflow/execution_resources.py:690-697 | along a run an unchanged revision means the whole journal is unchanged |
| ResourceOrder.StageMovesForward | aflow/execution_resources.py:481-761 | a ticket's status only moves forward |
| ResourceOrder.AheadShrinks | aflow/execution_resources.py:538-548 | the tickets ahead of an issued ticket only disappear |
| ResourceOrder.TicketsInOrder | aflow/execution_resources.py:504-580 | both over whole runs |
| ResourceOrder.GrantIsLeast | aflow/execution_resources.py:538-548 | a granted ticket is less than any waiting or unissued one |
| ResourceOrder.GrantsIncrease | aflow/execution_resources.py:504-548 | granted tickets strictly increase over any run |
| ResourceOrder.OthersKeepClaim | aflow/execution_resources.py:284-310 | a claim changes only by its own identity or by a reclaim that names it |
| ResourceOrder.ClaimIsFound | aflow/execution_resources.py:303-310 | an invocation names one claim |
| ResourceDecisions.NewClaimIsQueued | aflow/execution_resources.py:504-519 | an unknown invocation gets the next ticket at the end of the queue while there is room, and a capacity refusal otherwise |
| ResourceDecisions.KnownClaimIsAnswered | aflow/execution_resources.py:490-503 | a known invocation is answered with its own ticket to the same controller and spec alone, and nothing is written |
| ResourceDecisions.FirstWaiterIsGranted | aflow/execution_resources.py:538-557 | in any valid journal without an owner the waiter with the least ticket is granted when it asks, however many wait, and only it leaves the queue |
| ResourceDecisions.OthersAreNotGranted | aflow/execution_resources.py:525-548 | any other call writes nothing and says why: unknown, another controller, unconfirmed owner or busy |
| ResourceDecisions.CancelExactly | aflow/execution_resources.py:559-590 | a waiting or reserved claim is withdrawn by its own controller, alone, and any other is refused |
| ResourceDecisions.LaunchExactly | aflow/execution_resources.py:592-600 | launching is marked for a reserved owner by its own controller and changes nothing else |
| ResourceDecisions.BindExactly | aflow/execution_resources.py:602-627 | a child is bound to a launching owner by its own controller and changes nothing else |
| ResourceDecisions.CompleteExactly | aflow/execution_resources.py:629-655 | an owner in any status is released, or retained as unconfirmed, by its own controller and by nobody else |
| ResourceDecisions.ReclaimExactly | aflow/execution_resources.py:690-717 | a journal at the sampled revision loses exactly the sampled claims, and another revision changes nothing |
| ResourceWorld.RequestKeepsOccupied | aflow/execution_resources.py:481-655 | no request of any controller disturbs a launched or running owner |
| ResourceWorld.LooksDecide | aflow/execution_resources.py:768-809 | the looks at controller, child and group, taken in turn, remove a claim exactly when the decision on their evidence does |
| ResourceWorld.WaiterReclaimedExactly | aflow/execution_resources.py:768-809 | with full evidence a waiting or reserved claim is removed exactly when its controller is dead |
| ResourceWorld.OwnerReclaimedExactly | aflow/execution_resources.py:768-809 | with full evidence an owner that may have a provider is removed exactly after a reboot, or with its controller dead, its bound child gone or reused, and its group absent |
| ResourceWorld.LookFindsTruth | aflow/execution_resources.py:768-809 | each look adds only findings that are so when it is taken |
| ResourceWorld.LookIsSafe | aflow/execution_resources.py:675-688 | every look keeps the world, and all earlier findings, safe |
| ResourceWorld.RemovalProvesGone | aflow/execution_resources.py:768-809 | however far apart the looks were, a claim marked for removal has a dead controller and no provider process while the journal is the one read |
| ResourceWorld.CommitRemovesOnlyGone | aflow/execution_resources.py:690-717 | a commit removes only claims that are gone at that moment, however old the sample |
| ResourceWorld.LaunchIsSafe | aflow/execution_resources.py:592-600 | a durable launch before the spawn keeps the world safe |
| ResourceWorld.FinishIsSafe | aflow/execution_resources.py:629-655 | completion frees the resource only for its own invocation |
| ResourceWorld.CommitIsSafe | aflow/execution_resources.py:690-717 | the locked half of reconcile keeps the world safe |
| ResourceWorld.StepIsSafe | aflow/execution_resources.py:481-809 | every step of controllers, processes, reconcilers and the machine keeps the world safe |
| ResourceWorld.RunIsSafe | aflow/execution_resources.py:481-809 | every world of every run is safe |
| ResourceWorld.Exclusion | aflow/execution_resources.py:481-809 | at every moment of every run all live provider processes belong to the recorded owner's invocation |
| ResourceWorld.ReclaimIsSound | aflow/execution_resources.py:657-717 | over whole runs a reclaim removes no claim whose controller or provider lives, and only from an unchanged journal |
| ResourceStore.ConcludeCases | aflow/execution_resources.py:354-400 | contention, broken locks, unreadable journals and failed writes never report success, and publish nothing but the decision |
| ResourceStore.ConcludeCalmly | aflow/execution_resources.py:354-400 | with a free lock and a write that succeeds a readable journal gets the decision itself |
| ResourceStore.ExecutionResourceStore.ValidateJournal | aflow/execution_resources.py:411-468 | accepts exactly the valid journals |
| ResourceStore.ExecutionResourceStore.ValidateClaims | aflow/execution_resources.py:446-467 | accepts exactly well-formed claims with distinct tickets and invocations |
| ResourceStore.ExecutionResourceStore.EnqueueClaim | aflow/execution_resources.py:481-519 | outcome and file are those of the enqueue decision |
| ResourceStore.ExecutionResourceStore.TryAcquireClaim | aflow/execution_resources.py:521-557 | outcome and file are those of the acquire decision; with a free lock and a working write the first waiter of a free resource is granted with its own ticket, and nothing else ever is, or changes the file |
| ResourceStore.ExecutionResourceStore.CancelClaim | aflow/execution_resources.py:559-590 | outcome and file are those of the cancel decision |
| ResourceStore.ExecutionResourceStore.OwnedTransition | aflow/execution_resources.py:721-761 | outcome and file are those of the fenced owner transition |
| ResourceStore.ExecutionResourceStore.MarkClaimLaunching | aflow/execution_resources.py:592-600 | only a reserved owner is marked launching |
| ResourceStore.ExecutionResourceStore.RegisterChildOf | aflow/execution_resources.py:602-627 | only a launching owner is bound to a child |
| ResourceStore.ExecutionResourceStore.RecordCompletion | aflow/execution_resources.py:629-655 | completion removes, retention marks unconfirmed |
| ResourceStore.ExecutionResourceStore.SampleClaims | aflow/execution_resources.py:657-688 | the unlocked half of reconcile collects exactly the claims the evidence removes |
| ResourceStore.ExecutionResourceStore.CommitReclaim | aflow/execution_resources.py:690-719 | the locked half removes them only at the sampled revision |
| ResourceAdmission.ReadmissionGetsTicket | aflow/execution_resources.py:490-503 | a kept claim survives any operations of others, and admission with the same spec then writes nothing and answers its ticket or a lock it could not take |
| ResourceAdmission.ForeignRunKeepsTicket | aflow/execution_resources.py:481-761 | any run of operations of others keeps the ticket |
| ResourceAdmission.EnqueueKeepsHeld | aflow/execution_resources.py:490-503 | enqueueing a kept claim changes nothing and can only answer the kept ticket |
| ResourceAdmission.ForeignKeepsTicket | aflow/execution_resources.py:481-761 | what others do keeps a waiting ticket and a reservation |
| ResourceAdmission.OwnEnqueue | aflow/execution_resources.py:481-519 | an enqueue that is not rejected holds its ticket |
| ResourceAdmission.OwnAcquire | aflow/execution_resources.py:521-557 | an acquire keeps the ticket or reports the reservation it holds |
| ResourceAdmission.OwnCancel | aflow/execution_resources.py:559-590 | a confirmed cancel, or an unknown invocation, means the claim is absent |
| ResourceAdmission.SampleSparesLive | aflow/execution_resources.py:768-809 | evidence that spares a live controller spares its ticket |
| ResourceAdmission.NewcomerGetsTicket | aflow/execution_resources.py:504-519 | a newcomer gets the next ticket and waits behind everyone |
| ResourceAdmission.ReclaimLands | aflow/execution_resources.py:690-717 | findings about the journal that is still there are removed from it |
| ResourceAdmission.AfterReclaimExactly | aflow/execution_resources.py:698-717 | what is left are exactly the claims that were not found gone |
| ResourceAdmission.ExecutionResourceAdmission.WithdrawClaim | aflow/execution_resources.py:1195-1217 | success means the claim is absent; in calm moments a cancellable claim is withdrawn, whatever else is queued |
| ResourceAdmission.ExecutionResourceAdmission.ReadControls | aflow/execution_resources.py:1093-1127 | owner stop before live revalidation, which is read only without a stop |
| ResourceAdmission.ExecutionResourceAdmission.LeaveAs | aflow/execution_resources.py:1104-1127 | a retained re-prepare keeps the claim; every other exit withdraws it first or fails closed, and in quiet moments a cancellable claim leaves with the exit asked for |
| ResourceAdmission.ExecutionResourceAdmission.ServiceControls | aflow/execution_resources.py:1093-1127 | the exit is the one the controls ask for, or the typed error, and leaves the journal as it promises; in quiet moments over a cancellable claim it is the one asked for |
| ResourceAdmission.ExecutionResourceAdmission.ServiceControlsFinal | aflow/execution_resources.py:1129-1175 | the same for the check after the grant, repeated while the configuration is unreadable, with the reservation kept on success |
| ResourceAdmission.ExecutionResourceAdmission.ReconcileDeadOwner | aflow/execution_resources.py:1073-1091 | reconciling while waiting never loses the waiter's own ticket; in quiet moments it removes exactly the claims the evidence shows gone |
| ResourceAdmission.ExecutionResourceAdmission.Poll | aflow/execution_resources.py:1021-1052 | one poll keeps a known ticket, learns no other one, or gains the reservation, and gains it whenever this claim is the first waiter and the lock and the write work |
| ResourceAdmission.ExecutionResourceAdmission.Enlist | aflow/execution_resources.py:1000-1007 | the first enqueue is rejected, or holds the ticket kept from before or a new one, or the reservation; a newcomer gets the next ticket in quiet moments |
| ResourceAdmission.ExecutionResourceAdmission.Wait | aflow/execution_resources.py:1008-1052 | the wait ends with the reservation or with a clean exit |
| ResourceAdmission.ExecutionResourceAdmission.Obtain | aflow/execution_resources.py:1000-1052 | up to the grant: the reservation of the known ticket, or a clean exit |
| ResourceAdmission.ExecutionResourceAdmission.Admit | aflow/execution_resources.py:973-1069 | stop and fresh re-prepare leave no claim, retained re-prepare keeps it and any ticket kept before, a lease means the reserved owner under that ticket; an idle resource is granted |
| ResourceAdmission.ExecutionResourceAdmission.Readmit | aflow/execution_resources.py:1115-1127 | over repeated retained re-prepares with others acting in between every admission learns the same ticket and the lease is for it |
| ResourceAdmission.ExecutionLease.MarkLaunching | aflow/execution_resources.py:843-875 | launch intent is recorded at most once, contention is retried and a reserved owner succeeds at the first free lock; success means the owner was reserved and is launching |
| Conditions.TextMeansCondition | aflow/workflow.py:7628-7724 | every text of a condition, however spaced and with any redundant parentheses, evaluates to its boolean meaning |
| Conditions.AcceptedTextIsACondition | aflow/workflow.py:7628-7724 | a text that evaluates under some flags is one condition's and means it under all flags |
| Conditions.TextTokenizes | aflow/workflow.py:7645-7678 | tokenizing the text of any token sequence, whatever its blanks, gives the tokens back |
| Conditions.EvaluatesMeaning | aflow/workflow.py:7681-7724 | on tokens, the recursive descent gives every condition its meaning, conjunction binding tighter than disjunction |
| Conditions.SymbolEvaluates | aflow/workflow.py:7612-7678 | a one-symbol text is tokenized and evaluates to its flag |
| Conditions.NamesEvaluate | aflow/workflow.py:7605-7625 | the texts DONE, NEW_PLAN_EXISTS and MAX_TURNS_REACHED evaluate to the flag of that name |
| Conditions.OtherNamesFail | aflow/workflow.py:7612-7625 | a single word evaluates exactly when it is one of the three names |
| Conditions.TokensJoin | aflow/workflow.py:7645-7678 | text that tokenizes keeps its tokens when text follows that cannot continue its last word |
| Conditions.TextsDisjoin | aflow/workflow.py:7681-7690 | any two accepted texts with || between them evaluate to the disjunction: nothing binds less tightly |
| Conditions.TextsConjoin | aflow/workflow.py:7692-7701 | groups with && between them evaluate to the conjunction, and a negation before it stays with its own group |
| Conditions.TextsNegate | aflow/workflow.py:7703-7709 | ! before a group negates it |
| Conditions.TextsGroup | aflow/workflow.py:7712-7724 | parentheses around an accepted text change nothing |
| Conditions.BlanksDoNotMatter | aflow/workflow.py:7645-7652 | leading blanks change nothing |
| BudgetResume.RecordedEdgeIsTaken | aflow/budget_resume.py:607-620 | a recorded target and condition identify the edge first-match routing took, preserve flag included |
| BudgetResume.SelectIsFirstMatch | aflow/workflow.py:7748-7770 | routing takes the edge at the least place whose condition holds or is missing, every earlier one being false |
| BudgetResume.FirstEdgeIsFirst | aflow/budget_resume.py:606-613 | the edge a receipt identifies is the first with its target and its condition |
| BudgetResume.ValidatedExactly | aflow/budget_resume.py:217-279 | a recorded END is validated exactly when its condition text is its own alone, holds only with the budget exhausted, and first-match routing then takes it |
| BudgetResume.DerivedExactly | aflow/budget_resume.py:539-620 | the next start derived from a receipt: its overlay, its own plan for a retry or a preserving edge, else the original; an END has none |
| BudgetResume.InheritedExactly | aflow/budget_resume.py:623-732 | a first turn inherits exactly from another recorded run of the same workflow, workspace and original whose last active plan follows from its last receipt |
| BudgetResume.AcceptedIsConsistent | aflow/budget_resume.py:850-1075 | whatever the records say, an accepted run stopped at its limit, and turn number, role, limit flag, terminal plans and start agree with its receipts |
| BudgetResume.AcceptedEndIsBudgetDriven | aflow/budget_resume.py:217-279 | an accepted END is the exhausted first match, never the restored one, and the next step is the restored first match |
| BudgetResume.DriveIsLinked | aflow/budget_resume.py:194-214 | every turn of a run starts on the plan the turn before selected |
| BudgetResume.DriveEnds | aflow/budget_resume.py:194-214 | the run's last active plan is the selection after its last receipt |
| BudgetResume.DriveRecords | aflow/workflow.py:7748-7770 | a run starts on its plan and step, records every input, and is at each turn at the step the turn before chose |
| BudgetResume.DriveStops | aflow/workflow.py:7773-7788 | a run stops at its limit exactly after the turn of that number chose a further step, and at a budget END exactly when its last END holds by the exhausted budget alone |
| BudgetResume.TurnsFollow | aflow/budget_resume.py:194-214 | each turn is at the step of the first match of the turn before, on the overlay that turn made, or its plan if the edge preserves it, or the original |
| BudgetResume.BudgetEndIsValidated | aflow/budget_resume.py:217-279 | a true budget END is validated exactly when its condition text is unique in the step |
| BudgetResume.DerivedStartIsExact | aflow/budget_resume.py:539-620 | the start of each later turn recomputed from its predecessor's receipt is the real one |
| BudgetResume.AcceptedExactly | aflow/budget_resume.py:735-1100 | a run that stopped at its limit is accepted exactly when it is resumable, and the boundary then names the last turn, the plan it started from, the overlay it made, and the step of its first match, after END of the first match with the budget restored |
| BudgetResume.InheritedStartIsExact | aflow/budget_resume.py:623-732 | the start a successor inherits recomputed from its parent is the one it used |
| BudgetResume.ReconstructionIsExact | aflow/cli.py:5970-5977 | over chains of successors acceptance is exactly resumability, every start is recomputed exactly, and each successor starts on the overlay or plan of its parent's last turn at the step that turn's routing leads to |
| BudgetResume.RepeatedConditionIsRejected | aflow/budget_resume.py:244-246 | a true budget stop with a repeated condition text is rejected |
| TeamGraph.CycleIsReal | aflow/config.py:1770-1777 | every team of a report lies on a cycle |
| TeamGraph.NextExactly | aflow/config.py:1760-1769 | an edge leads from a configured team to the configured team its attribute names |
| TeamGraph.CycleIsClosed | aflow/config.py:1770-1777 | from a report the edges lead nowhere else |
| TeamGraph.AcyclicIffNoReport | aflow/config.py:1760-1793 | there is no report exactly when the relation is acyclic |
| TeamGraph.OneReportPerCycle | aflow/config.py:1760-1793 | two reports one of which reaches the other are the same report |
| TeamGraph.TeamGraphValidator.WalkTeamChain | aflow/config.py:1770-1790 | the depth-first walk terminates and reports each cycle it meets once |
| TeamGraph.TeamGraphValidator.ValidateTeamGraph | aflow/config.py:1760-1793 | the reports are exactly the cycles, each once |
| TeamGraph.UnknownTargets | aflow/config.py:1761-1766 | exactly the edges to unknown teams are reported |
| Workflows.Materializer.Resolve | aflow/config.py:971-1060 | the memoised resolution computes what a workflow is, defined without memo |
| Workflows.Materializer.Materialize | aflow/config.py:1062-1064 | every workflow is materialized, or the first failing one gives the error |
| Workflows.AliasInheritsSteps | aflow/config.py:929-959 | an alias runs the base's steps without both exclusions, in the base's order, and some step remains |
| Workflows.MergeExcluded | aflow/config.py:929-932 | the merged exclusions are the union |
| Workflows.RootResolvesExactly | aflow/config.py:985-1020 | a workflow with its own steps is accepted exactly when it excludes known steps and those left can run, and takes each lifecycle list from its own table and else from the document |
| Workflows.AliasResolvesExactly | aflow/config.py:1021-1060 | an alias is accepted exactly over an accepted base with steps of its own when both exclude known steps and those left can run, and takes each lifecycle list from its own table and else from its base |
| Workflows.WithoutStepsInOrder | aflow/config.py:947-959 | the steps left keep their declared order |
| Workflows.TrimExactly | aflow/config.py:63-69 | trimming cuts the blanks at both ends and nothing else, and leaves nothing exactly of a blank text |
| Workflows.ParsesListExactly | aflow/config.py:63-69 | a list is accepted exactly when absent or without a blank item, each then trimmed |
| Workflows.InheritedExactly | aflow/concierge.py:830-892 | the inherited lifecycle is the nearest setup list and the nearest teardown list of the chain, the document last |
| Workflows.LifecycleResolver.Resolve | aflow/concierge.py:830-892 | on every document it terminates, giving the inherited lifecycle or nothing when the chain is broken or cyclic |
| Workflows.RootExcludesFailure | aflow/concierge.py:852-890 | a chain that reaches a root meets nothing broken and no cycle, so the two answers exclude each other |
| Workflows.ResolversAgree | aflow/concierge.py:833-840 | for every accepted workflow the loader's lifecycle is the concierge's with each item trimmed |
| Workflows.ResolversAgreeExactly | aflow/concierge.py:833-840 | on an accepted document the two agree for all workflows exactly when the items in use are trimmed |
| Workflows.BlankItemDisagrees | aflow/config.py:63-69 | an accepted document with a leading blank on which they differ |
| Workflows.ResolveBoth | aflow/concierge.py:830-892 | the two memoised resolvers run on one accepted document give answers that differ at most by trimming |
| ConciergeDrafts.RequestFollowsItsRecord | aflow/concierge.py:2966-2995 | along every run the guard of a create request, its pending record durably saved just before, stays in the log; that ticks meet the guard is what CreateWithIntent and Serve prove |
| ConciergeDrafts.StepMovesForward | aflow/concierge.py:265-287 | a step that misreads no record takes no durable record back, and only a power loss takes a visible one back |
| ConciergeDrafts.StatusTakenBackExactly | aflow/concierge.py:2795-2825 | one step takes a durable status back exactly when a workspace or a new intent lands on its file, which is a misreading |
| ConciergeDrafts.VisibleTakenBackExactly | aflow/concierge.py:2795-2825 | the visible status goes back in the same ways or to the version a power loss leaves |
| ConciergeDrafts.DurableStatusMovesForward | aflow/concierge.py:265-287 | over every run a durable status and its document hold from one moment on exactly as long as no step takes them back |
| ConciergeDrafts.PowerLossKeepsVisible | aflow/concierge.py:4900-4907 | a power loss takes no visible status back exactly when every kept version has it |
| ConciergeDrafts.ExposedExactly | aflow/concierge.py:2795-2825 | for a requested and protected issue a step ends the protection exactly when it is a workspace landing on the last remaining record or a new durable intent |
| ConciergeDrafts.ExposureIsMisreading | aflow/concierge.py:2665-2668 | both events misread: the record's own file, or every visible record of the issue |
| ConciergeDrafts.StepKeepsCalm | aflow/concierge.py:2731-3140 | every other step keeps the issue requested at most once and protected once requested |
| ConciergeDrafts.RequestedAgainExactly | aflow/concierge.py:2936-2950 | after one request, steps that read everything can lead to a second exactly when the protection has ended |
| ConciergeDrafts.RecreatedExactly | aflow/concierge.py:2731-3140 | for every run and issue: some moment can be continued, reading everything, to a second request exactly when one of the two events happened |
| ConciergeDrafts.TwiceNeedsExposure | aflow/concierge.py:2731-3140 | a run with two requests of an issue contains one of the two events |
| ConciergeDrafts.AtMostOnceCreation | aflow/concierge.py:1807-1825 | over any ticks, crashes, power losses and ambiguous replies in which no step misread a record of its issue, an issue is asked for at most once |
| ConciergeDrafts.MisreadCreatesTwice | aflow/concierge.py:2665-2668 | first event: one unreadable record and an edited issue text give two requests |
| ConciergeDrafts.OverwrittenCreatesTwice | aflow/concierge.py:2817-2825 | second event: a workspace written over an unreadable record lets a tick that reads everything ask again |
| ConciergeTicks.Triage | aflow/concierge.py:1791-1850 | a plan is created only for the oldest owner issue that no plan mentions and no record covers |
| ConciergeTicks.ChosenExactly | aflow/concierge.py:1807-1850 | of the owner issues that no record is about and no listed plan mentions, the first by creation and then by number, while no listed plan lacks its content |
| ConciergeTicks.LoadCoversIssues | aflow/concierge.py:1807-1810 | keying records by plan path loses no covered issue |
| ConciergeTicks.MutationBudget.Consume | aflow/concierge.py:241-262 | one grant per budget |
| ConciergeTicks.ConciergeTickExecutor.Save | aflow/concierge.py:2707-2729 | a save that returns is durable; one that raises is absent or visible |
| ConciergeTicks.ConciergeTickExecutor.LoadDrafts | aflow/concierge.py:2655-2705 | the load covers exactly the issues of the readable records |
| ConciergeTicks.ProvesCreatedExactly | aflow/concierge.py:3157-3238 | a creation is proven exactly when the todo file holds the recorded document at a known revision, the issue is open with the recorded text, and no other listed plan mentions it |
| ConciergeTicks.ConciergeTickExecutor.ReconcilePendingCreate | aflow/concierge.py:3157-3250 | a pending record becomes created exactly when the evidence proves it |
| ConciergeTicks.ConciergeTickExecutor.ReconcilePendingCreates | aflow/concierge.py:3139-3155 | every proven pending draft is created, the others stay, no request is made |
| ConciergeTicks.PromotableStays | aflow/concierge.py:3139-3155 | reconciliation keeps a promotable path promotable |
| ConciergeTicks.ConciergeTickExecutor.RunPlanner | aflow/concierge.py:2785-2876 | a record in the claim's file stops the tick; otherwise the planner runs, preparing a workspace only in a missing or unreadable file |
| ConciergeTicks.ConciergeTickExecutor.Recheck | aflow/concierge.py:2888-2962 | goes on exactly when evidence gathered anew still wants this plan |
| ConciergeTicks.ConciergeTickExecutor.CreateWithIntent | aflow/concierge.py:2966-3048 | the pending record is durable before the only request; without faults a proven reply ends created |
| ConciergeTicks.ConciergeTickExecutor.RecordCreated | aflow/concierge.py:3031-3140 | only a proven revision turns the pending record into a created one |
| ConciergeTicks.ConciergeTickExecutor.RequestCreation | aflow/concierge.py:2985-3048 | the request directly follows the save of its record, and only a proven reply ends created |
| ConciergeTicks.ConciergeTickExecutor.ExecuteCreatePlan | aflow/concierge.py:2731-3048 | at most one request, none with a spent budget; a reported creation is durably recorded; without faults a plan every check wants is created once the reply proves a revision, and a plan created from a readable file was wanted by every check |
| ConciergeTicks.ConciergeTickExecutor.PromoteWithBudget | aflow/concierge.py:3351-3470 | one promote request; without faults it is made, and every reply but an unproven one ends in a durably recorded promotion |
| ConciergeTicks.ConciergeTickExecutor.ExecutePromotePlan | aflow/concierge.py:3291-3411 | a created draft under its own path, selected again with a known revision, is asked for and, unless the reply stays ambiguous, promoted; without a revision, with another selection, a spent budget or no created draft nothing is changed or asked |
| ConciergeTicks.ConciergeTickExecutor.CarryOut | aflow/concierge.py:2526-2580 | a decision leads to at most one external mutation: holding and reporting to none, a defect or other mutation to exactly one, a confirmed promotion to its request, an unconfirmed one to none, a favourable creation to its plan |
| ConciergeTicks.ConciergeTickExecutor.Survey | aflow/concierge.py:2495-2526 | load, reconcile, select: what the first evidence selects over the record files as they were, with no request |
| ConciergeTicks.ConciergeTickExecutor.Execute | aflow/concierge.py:2470-2580 | one tick issues at most one external mutation; without faults it creates the plan of the issue every check wants, and one it creates from a readable file was wanted by every check; it asks for the promotion both looks select, and for none without a revision or a second look that agrees |
| ConciergeTicks.ConciergeTickExecutor.LosePower | aflow/concierge.py:4882-4915 | power returns with each record file as it was in some version since its last successful sync |
| ConciergeTicks.ConciergeTickExecutor.Serve | aflow/concierge.py:4985-5000 | over any ticks and power losses requests follow their durable records, a second request comes only after one of the two events, and with readable records there is none |

## Left out

Configuration pair

- JSON text and TOML parsing, and the schema checks of the loader on the recovered pair.
- flock and its re-entrancy, the read-only degradation of the lock, symlinked pairs, and the unlocked shortcut of the loader for a missing configuration: operating-system cases.
- Irregular files and unsafe links in place of a document or record; they refuse like a malformed record.
- Staging files: only their failures matter to the pair.

Resource broker

- Several resources in one store, resource names, schema versions and JSON types of a journal; the size limit of a journal is one more way for a write to fail.
- The journal write syncs no directory, so a reboot may bring back an older published journal. `Exclusion` allows this; the order lemmas speak of one continuous history of published journals.
- The scan of one process group is one observation, true at one moment.
- A role without an exclusive resource, which is admitted at once without a lease.
- Deadlines and polling intervals, the waiting hooks and operator messages, and how long a wait lasts: a script of moments may end while the loop waits.

Budget boundaries

- Selector evidence, saved snapshots, branches, failure kinds other than the turn limit, and files on disk: assumed to pass.
- The historical same-team recovery shape, manager recovery and retry turns within a modelled chain.
- White space and letters beyond ASCII in condition texts.

Graphs

- Python's recursion limit in the depth-first walk and in the resolvers.
- Team, branch, merge prompt, manager and upgrade fields of a workflow: they inherit like the lifecycle or are copied.
- White space beyond ASCII when items are trimmed.

Concierge

- The MCP and GitHub clients, the planner's process, status files, redaction, defect contents, delivery gates, and the selection of every action before plan creation: evidence inputs of a tick.
- A plan inventory that lists one file twice; the model's inventory holds a file once.
- Two repositories that share a state directory.
- An uncalled combined plan-and-start action.
