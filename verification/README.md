# Verification of Glaeda's recovery, admission and publication protocols

A Dafny model of eight of Glaeda's scripts and proofs of what they promise. Each module follows one
component:

| files | component |
|---|---|
| `DirectoryDeletion`, `HotDisk`, `HotNamespace`, `HotRuns`, `ValueMigration`, `StateIdentity` | hot-run state: publication, recovery tickets, budgeted deletion, value records, eviction, catalog migration, state identity |
| `Templates`, `Expressions`, `ExpressionParser`, `ConcurrencyGroups` | the delivery-concurrency reader: expression values, kind sets, parser, groups |
| `RequestLedger`, `RequestQueue` | the Apple request queue and its workers |
| `LaunchAdmission` | the owned-Linux launch reservation |
| `FleetPublication` | the signed fleet snapshot and its racing publishers |
| `ExecutionRoles`, `SlotAdmission` | execution roles, measured capacity and slot admission |
| `NativeBuild` | the native build's inflight, receipt and quarantine files |
| `FleetEnrollment` | node enrollment and class acceptances |

`dafny verify dfyconfig.toml` checks everything.

## How the model is built

- Code that changes files step by step is a class whose fields are the files. Hot-run state, the
  value store and the native build also keep the list of every disk there has been, one entry per
  atomic write; a crash restarts from any of them. Their validity says that *every* entry is safe, so
  each method's contract covers all of its crash points.
- Protocols of several processes are state machines over atomic steps. A section under a lock is one
  step; a lock held longer is part of the state. A step whose guard refuses changes nothing, so every
  sequence of steps is a run.
- Loops over rows, receipts, leases, tokens and bytes are methods proved equal to specification
  functions, about which the lemmas speak.
- Identities (SHA-256 digests, uuids, node names, inodes) are natural numbers or the values they
  digest; file paths are byte sequences as pathlib splits and prints them.

## Where the code does not meet the plain property

- Retirement deletion is resumable exactly while the record is absent or names the directory at hand
  (`DeleteRetiredStateBounded` refuses exactly otherwise and touches nothing). An eviction that dies between
  removing a directory and its record, a publication of the same identity by a run that did not collect,
  and a collection pass once its generation is gone lead to the other case
  (`HotRuns.StaleRecordBlocksDeletion`). From there no run leads back, and the collector never passes the
  directory's ticket: every pass that reaches it raises (`HotRuns.MismatchForever`).
- A crash inside an eviction or collection pass can lose one value record, in that no later scan meets it:
  between the cursor write and the record rewrite of a requeue (`HotDisk.RequeueWindow`, exactly those crash
  points) or between removing a ticket and its record. Each cut-off pass adds at most one
  (`HotRuns.AnyRun`), two can lose two (`HotRuns.TwoCutPassesLoseTwo`), and a recorded use of a state
  repairs its record (`HotRuns.UseRepairs`).
- The bounded deleter's exact count holds for forests without entries it may not remove and without two
  directories wanting one promoted name, which distinct inodes rule out
  (`DirectoryDeletion.DistinctObjectsAreClean`); otherwise completion still implies W < B.
- With a known event, `github.event_name == 'x'` compared once more is refused as unreadable
  (`ExpressionParser.ParsePrinted` gives the exact condition). It then counts as shared.
- A boolean input named like an identity whose declaration the reader does not have gets kinds its value can
  escape (`Expressions.InputSoundExactly`). With unread triggers no group is affected
  (`Expressions.UnreadAlwaysShareable`). Under an event that was read, when declarations come as a bare set of
  required names or two events declare one input differently, such a group can pass as unshared and carry no
  identity (`ConcurrencyGroups.UntoldBooleanEscapes`).
- In a called workflow (`workflow_call`) the reader takes `github.event_name` to be that event, while the run
  sees its caller's. An event test then lies in its kinds in every run exactly when the workflow is not a
  called one (`Expressions.TestSoundExactly`), any such test gives a group that passes as unshared and carries
  no identity (`ConcurrencyGroups.CalledWorkflowEscapes`), and groups that do not ask for the event are safe
  (`ConcurrencyGroups.UnsharedCarriesIdentity`).
- Removing a state's value metadata does not read the catalog, so it can fall between a cut-off migration and
  its rerun. The rerun writes the ticket and record again, for a state that is gone too
  (`ValueMigration.ValueStore.MigrateThroughCrashes`); it never conflicts.
- A receipt without an exit code would settle as completed and make the ledger unreadable
  (`RequestLedger.SettledValid`); `execute` never returns one.
- A native build whose controller dies between starting the command and recording its process group can
  never be recovered (`NativeBuild.Checkout.Recover`); its checkout stays blocked.

## Model

| member | source | states |
|---|---|---|
| `DirectoryDeletion.WorkCountsEntries` | scripts/hot_run_impl.py:1345-1505 | for every forest the deleter's work is files + 2·directories − top-level directories of what is not preserved |
| `DirectoryDeletion.NestedWorkCounts` | scripts/hot_run_impl.py:1345-1505 | below the root every directory costs two units (promotion and rmdir) and every file one |
| `DirectoryDeletion.DeleteDirectoryContentsBounded` | scripts/hot_run_impl.py:1345-1505 | for any scan order: every unit of budget pays one unit of work, only preserved entries remain on completion, and on a clean forest it completes exactly when W < B leaving B − W, and otherwise leaves exactly W − B work |
| `DirectoryDeletion.DeleteSelected` | scripts/hot_run_impl.py:1370-1503 | one selected entry is unlinked, removed, or has one child unlinked or promoted for one unit; it stops only at a foreign entry or a taken promoted name |
| `DirectoryDeletion.Select` | scripts/hot_run_impl.py:1357-1368 | finds an entry to remove exactly when one that is not preserved exists |
| `DirectoryDeletion.PromoteEffect` | scripts/hot_run_impl.py:1470-1501 | promoting a nested directory lowers the work by one and keeps the preserved entries and the set of names still to be claimed |
| `DirectoryDeletion.UnlinkInsideEffect` | scripts/hot_run_impl.py:1451-1462 | unlinking a nested file lowers the work by one and preserves the rest |
| `DirectoryDeletion.RemoveEffect` | scripts/hot_run_impl.py:1383-1433 | removing a root file or an empty root directory lowers the work by one |
| `DirectoryDeletion.CollisionClaimsTwice` | scripts/hot_run_impl.py:1470-1479 | a taken promoted name means two directories claim one device, inode and change time |
| `DirectoryDeletion.DistinctObjectsAreClean` | scripts/hot_run_impl.py:1338-1342 | a tree of removable entries whose directories have distinct inodes has no such collision, whatever the change times |
| `HotDisk.KeepsCovered` | scripts/hot_run_impl.py:3233-3271 | writes that keep tickets and owe nothing new and unticketed keep every recovery debt ticketed in (cursor, next] |
| `HotDisk.RemovalKeepsCovered` | scripts/hot_run_impl.py:3216-3230 | a ticket may be removed once its debt is settled or a later ticket names it |
| `HotDisk.ScanPasses` | scripts/hot_run_impl.py:3317-3331 | the collector's cursor may pass a ticket once its debt is settled or ticketed again later |
| `HotNamespace.Namespace.EnqueueReconcileTicket` | scripts/hot_run_impl.py:3233-3253 | issues the next number, the catalog before the ticket, every crash point safe |
| `HotNamespace.Namespace.RequeueReconcileTicket` | scripts/hot_run_impl.py:3256-3271 | moves a debt to a new ticket, the new one before the old goes, every crash point safe |
| `HotNamespace.Namespace.PublishImplicitStateBase` | scripts/hot_run_impl.py:1199-1261 | creates the state exactly when it is absent and one of the 32 stage names is free, reuses exactly one with a manifest of the same generation contract, and refuses otherwise; at every crash point each debt is ticketed and no value record is lost |
| `HotNamespace.Namespace.CreateState` | scripts/hot_run_impl.py:1231-1261 | makes the state exactly when one of the 32 stage names is free, leaves no stage behind, and loses no value record at any crash point |
| `HotNamespace.Namespace.AllocateStage` | scripts/hot_run_impl.py:1231-1249 | tickets each candidate stage name before making it, succeeds exactly when one of the 32 is free, and changes nothing else |
| `HotNamespace.Namespace.CompleteStage` | scripts/hot_run_impl.py:1250-1261 | manifest, state ticket and rename in that order: the published state is the stage with its manifest |
| `HotNamespace.Namespace.RetireState` | scripts/hot_run_impl.py:2682-2705 | tickets the retired name and then renames the state, unless that name is taken |
| `HotNamespace.Namespace.EnsureRetirementRecord` | scripts/hot_run_impl.py:2750-2773 | writes the record of the directory's device and inode, or refuses exactly when a different one is there |
| `HotNamespace.Namespace.DeleteRetiredStateBounded` | scripts/hot_run_impl.py:2776-2877 | refuses, touching nothing, exactly when directory and record disagree; otherwise deletes at most 2048 units, manifest last, then directory, then record, each crash point resumable |
| `HotNamespace.Namespace.DrainRetiredState` | scripts/hot_run_impl.py:2776-2877 | repeated calls remove directory and record in exactly ⌊W/2048⌋ + 1 calls |
| `HotNamespace.Namespace.EmptyRetiredDirectory` | scripts/hot_run_impl.py:2838-2860 | the manifest goes only once nothing else is left |
| `HotNamespace.ContentsSafe` | scripts/hot_run_impl.py:2838-2846 | every intermediate content of the deleter inside a retired directory is a safe crash point |
| `HotNamespace.Namespace.DeleteUnpublishedStageBounded` | scripts/hot_run_impl.py:2880-2941 | deletes a creating stage within the budget, every crash point safe |
| `HotNamespace.Namespace.CollectOneUnreachableState` | scripts/hot_run_impl.py:3297-3556 | examines at most 32 tickets, settles or requeues each before the persisted cursor passes it, never touches the current state, loses no value record, and raises with the disk unchanged when the next ticket is for a directory its record does not name |
| `HotNamespace.Namespace.CollectCreating` | scripts/hot_run_impl.py:3340-3363 | a creating ticket is settled by deleting its stage, or requeued while deletion is incomplete |
| `HotNamespace.Namespace.CollectRetired` | scripts/hot_run_impl.py:3365-3405 | a retired ticket is settled once directory and record are gone, requeued while deletion is incomplete, and raises when they disagree |
| `HotNamespace.Namespace.CollectState` | scripts/hot_run_impl.py:3407-3538 | a state ticket is requeued while the state is current, reachable or unreadable, let go when legacy, and retires it when unreachable |
| `HotRuns.AnyRun` | scripts/hot_run_impl.py:3297-3556 | over every run of publish, use, collect and evict steps with a crash after any write: every debt on every disk has its ticket in (cursor, next]; on the disks an operation writes at most as many value records are lost as passes were cut off before it, and one more if it is a pass; at the end at most as many as passes were cut off |
| `HotRuns.Perform` | scripts/hot_run_impl.py:2298-2747 | a completed operation loses no value record; at no crash point of a pass is more than one lost beside those lost before, none in any other operation; a recorded use repairs its own |
| `HotRuns.UseRepairs` | scripts/hot_run_impl.py:2408-2448 | the record a use repairs stays repaired over every further run in which no pass is cut off, whatever else was lost |
| `HotRuns.TwoCutPassesLoseTwo` | scripts/hot_run_impl.py:2506-2588 | the bound is reached: two eviction passes, each cut off right after it moved the cursor over the ticket of the state in use, lose two records |
| `HotRuns.CutPass` | scripts/hot_run_impl.py:2506-2588 | from any state whose next ticket is the current state's, an eviction pass has a crash point with only the pressure flag and the cursor moved |
| `HotRuns.StaleRecordBlocksDeletion` | scripts/hot_run_impl.py:2750-2877 | resumability is not unconditional: publish, use, an eviction that dies after rmdir, a second publication and one collection pass leave a directory its record does not name, and after any further run it is still there with its ticket ahead of the cursor |
| `HotRuns.MismatchForever` | scripts/hot_run_impl.py:2750-2877 | once directory and record disagree they disagree on every later disk of every run, the ticket stands, and the collector never passes it |
| `HotRuns.EvictAndCrash` | scripts/hot_run_impl.py:2682-2742 | an eviction pass has a crash point with the directory gone, the record left and the state ticket numbered before the retired one |
| `HotNamespace.Namespace.RecordSuccessfulUse` | scripts/hot_run_impl.py:2408-2448 | writes exactly the use's snapshots; no crash point loses a value record, and the used state's record is no longer lost |
| `HotNamespace.UseKeepsSound` | scripts/hot_run_impl.py:2408-2448 | at each crash point of a use every record that was not lost still points at its own ticket in (cursor, next], and from the record write on so does the used state's |
| `HotDisk.PointsDistinct` | scripts/hot_run_impl.py:2408-2448 | distinct value records that are not lost hold distinct tickets |
| `HotDisk.RequeueSound` | scripts/hot_run_impl.py:2464-2503 | whatever was lost before, no crash point of a requeue loses another record than the requeued one |
| `HotDisk.RequeueWindow` | scripts/hot_run_impl.py:2464-2503 | the requeued record is lost exactly at the crash points before its rewrite, and it alone |
| `HotNamespace.Namespace.RequeueValueTicket` | scripts/hot_run_impl.py:2464-2503 | moves an examined ticket's record to a new ticket, cursor first |
| `HotNamespace.Namespace.RemoveGenerationValueMetadata` | scripts/hot_run_impl.py:3274-3294 | removes ticket and record of one state, losing at most that record at a crash point |
| `HotNamespace.Namespace.RetireOneLowValueState` | scripts/hot_run_impl.py:2506-2747 | examines at most 32 tickets issued before the pass, follows the pressure state, retires at most one state, never the current one, namely that of the smallest eligible ticket, and none only when none is eligible |
| `HotNamespace.Namespace.ExamineUntilEligible` | scripts/hot_run_impl.py:2532-2736 | the scan stops at the first eligible ticket, never meets a ticket it issued itself, and at any crash point has lost at most one record beside those lost before |
| `HotNamespace.EligibilityKept` | scripts/hot_run_impl.py:2545-2680 | dropping or requeueing one ticket changes the eligibility of no later ticket of the pass |
| `HotDisk.HysteresisRemembersLastExtreme` | scripts/hot_run_impl.py:2509-2530 | over any samples, pressure is active exactly when the latest sample outside the open 85–90% band was at or above 90% |
| `ValueMigration.SortStates` | scripts/hot_run_impl.py:2187-2193 | lists every state once by last use and then identity |
| `ValueMigration.OrderUnique` | scripts/hot_run_impl.py:2187-2193 | there is one such order, so every rerun numbers alike |
| `ValueMigration.ValueStore.PutTicket` | scripts/hot_run_impl.py:2203-2221 | never conflicts on a store with any of the migration's tickets and records, keeps it one, and keeps it a prefix of the migration's writes if it was |
| `ValueMigration.ValueStore.PutRecord` | scripts/hot_run_impl.py:2223-2230 | never conflicts on a store with any of the migration's tickets and records, keeps it one, and keeps it a prefix of the migration's writes if it was |
| `ValueMigration.ValueStore.Migrate` | scripts/hot_run_impl.py:2176-2243 | from any store cut-off migrations and metadata removals left reaches the final one; every crash point is such a store or the final one, and a prefix of the migration's writes if no metadata was removed |
| `ValueMigration.ValueStore.ReadCatalog` | scripts/hot_run_impl.py:2246-2266 | migrates a v1 store, leaves a migrated one untouched, and reads a missing one as empty |
| `ValueMigration.ValueStore.RemoveMetadata` | scripts/hot_run_impl.py:3274-3294 | removes the ticket a record names and the record, and nothing else; every crash point still holds only tickets and records the migration writes |
| `ValueMigration.RemovalStaysPartial` | scripts/hot_run_impl.py:3274-3294 | a store with any of the migration's tickets and records stays one when a ticket or a record is removed |
| `ValueMigration.InterruptedIsPartial` | scripts/hot_run_impl.py:2176-2243 | every prefix of the migration's writes leaves such a store |
| `ValueMigration.ValueStore.MigrateThroughCrashes` | scripts/hot_run_impl.py:2246-2266 | any number of reads and metadata removals, each cut off after any write, then one complete read, reach the final store |
| `ValueMigration.FinalUnique` | scripts/hot_run_impl.py:2176-2243 | every completed migration of one catalog leaves the same records, tickets and catalog |
| `ValueMigration.FinalTicketsOrdered` | scripts/hot_run_impl.py:2187-2221 | the tickets are exactly 1..n, ordered by last use and then identity |
| `ValueMigration.FinalIsSound` | scripts/hot_run_impl.py:2232-2243 | every migrated record points at its own ticket ahead of the cursor |
| `Paths.PrintParse` | scripts/hot_run_impl.py:999-1019 | the text of a path parses back to the path |
| `StateIdentity.PreimageInjective` | scripts/hot_run_impl.py:709-750 | generations with equal pre-images are equal: all paths, object identities and cache lists of any length |
| `StateIdentity.FieldCancels` | scripts/hot_run_impl.py:723-726 | a length-prefixed field can be cancelled from the front of two equal byte strings |
| `StateIdentity.NumberCancels` | scripts/hot_run_impl.py:727-743 | so can an eight-byte number |
| `StateIdentity.SpecFieldsInjective` | scripts/hot_run_impl.py:744-749 | equal encodings of two cache-spec lists of any lengths mean equal lists |
| `StateIdentity.Digest.UpdateField` | scripts/hot_run_impl.py:723-726 | feeds length and text, refusing a length that does not fit eight bytes |
| `StateIdentity.Digest.UpdateFields` | scripts/hot_run_impl.py:717-726 | feeds all fields in order, refusing exactly when one does not fit |
| `StateIdentity.Digest.UpdateNumbers` | scripts/hot_run_impl.py:727-743 | feeds all numbers in order, refusing exactly when one does not fit |
| `StateIdentity.Digest.UpdateSpecs` | scripts/hot_run_impl.py:744-749 | feeds path and mode of every cache spec in order |
| `StateIdentity.DefaultStateIdentity` | scripts/hot_run_impl.py:709-750 | the digest is fed exactly the pre-image, or the encoder raises |
| `StateIdentity.DescribedIsBuilt` | scripts/hot_run_impl.py:801-854 | a producer manifest describes the generation it was built from, relative Git paths derived afresh |
| `StateIdentity.RecomputeReturnsIdentity` | scripts/hot_run_impl.py:999-1049 | recomputing returns the manifest's identity exactly when the recorded relative Git paths are those the manifest's paths give |
| `Templates.UsedAppears` | scripts/delivery_concurrency.py:178-180 | every argument the reader counts as used appears in the rendered format string |
| `Templates.EmptyRender` | scripts/delivery_concurrency.py:187-189 | a rendered string is empty only when the template is placeholders alone and every used argument is empty |
| `Expressions.NameSound` | scripts/delivery_concurrency.py:139-161 | every reference's value lies in its kinds under every event, unless it is a boolean input the reader is not told about, or a pull request's or source run's identity in a called workflow that sees its caller's event |
| `Expressions.FormatSound` | scripts/delivery_concurrency.py:178-190 | the value of a format call lies in the kinds computed from its arguments' kinds |
| `Expressions.Sound` | scripts/delivery_concurrency.py:90-190 | for every expression, event and run the value lies in the meaning of the computed kinds, given the reader is told of the boolean inputs; in a called workflow that sees its caller's event, if nothing was decided by the event |
| `Expressions.InputSoundExactly` | scripts/delivery_concurrency.py:147-155 | under any event an input lies in its kinds in every run exactly when it is not a boolean or the reader is told that it is one; with unread triggers it is told of none |
| `Expressions.TestSoundExactly` | scripts/delivery_concurrency.py:106-118 | an event test lies in its kinds in every run exactly when the trigger is not `workflow_call`, whose runs see their caller's event |
| `Expressions.UnreadAlwaysShareable` | scripts/delivery_concurrency.py:148-149 | with unread triggers no expression is ever read as unshared, so the gap decides nothing |
| `Expressions.KindsNonEmpty` | scripts/delivery_concurrency.py:90-190 | no expression has the empty kind set |
| `ExpressionParser.ParseReads` | scripts/delivery_concurrency.py:84-190 | accepted tokens are exactly the printed form of the tree read |
| `ExpressionParser.ParsePrinted` | scripts/delivery_concurrency.py:84-190 | a tree's token form is read back as that tree, and refused exactly when the event is known and an event test is compared again |
| `ExpressionParser.Unambiguous` | scripts/delivery_concurrency.py:90-190 | no two trees share a token form |
| `ExpressionParser.ParseMinimal` | scripts/delivery_concurrency.py:84-190 | any tree's minimally parenthesised tokens are refused or give exactly the tree's kinds |
| `ExpressionParser.OrParses` | scripts/delivery_concurrency.py:90-96 | an operand list of `||` is read to its end or the parser is stuck on a chained event test |
| `ExpressionParser.CompareParses` | scripts/delivery_concurrency.py:106-118 | an event test is read whole; a chained one leaves a comparison operator unread |
| `ExpressionParser.Reader.ReadOr` | scripts/delivery_concurrency.py:90-96 | advances, and returns the kinds of exactly the tree the grammar reads |
| `ExpressionParser.Reader.ReadAnd` | scripts/delivery_concurrency.py:98-104 | advances, and returns the kinds of exactly the tree the grammar reads |
| `ExpressionParser.Reader.ReadCompare` | scripts/delivery_concurrency.py:106-118 | advances, and returns the kinds of exactly the tree the grammar reads |
| `ExpressionParser.Reader.ReadUnary` | scripts/delivery_concurrency.py:120-125 | advances, and returns the kinds of exactly the tree the grammar reads |
| `ExpressionParser.Reader.ReadPrimary` | scripts/delivery_concurrency.py:127-161 | advances, and returns the kinds of exactly the tree the grammar reads |
| `ExpressionParser.Reader.ReadCall` | scripts/delivery_concurrency.py:163-190 | advances, and returns the kinds of exactly the tree the grammar reads |
| `ExpressionParser.Reader.ReadArgs` | scripts/delivery_concurrency.py:165-175 | collects the arguments' kinds, and the template when the first argument is one string token |
| `ExpressionParser.Reader.Read` | scripts/delivery_concurrency.py:84-88 | refuses exactly what the grammar refuses; otherwise the tree's kinds, never empty |
| `ConcurrencyGroups.UnsharedCarriesIdentity` | scripts/delivery_concurrency.py:272-288 | when a group cannot be shared, its text carries an identity in every run under every declared event, given the reader is told of the boolean inputs of the events it could read and, in a called workflow that sees its caller's event, no part asks for the event |
| `ConcurrencyGroups.UntoldBooleanEscapes` | scripts/delivery_concurrency.py:272-288 | the condition on boolean inputs is exact: any untold boolean input, as with a bare set of required names, gives an unshared group and a run in which it carries no identity |
| `ConcurrencyGroups.CalledWorkflowEscapes` | scripts/delivery_concurrency.py:272-288 | in a called workflow a choice by any event test gives an unshared group and a run in which it carries no identity |
| `ConcurrencyGroups.PartCarries` | scripts/delivery_concurrency.py:264-269 | a part that is not shared always evaluates to text carrying an identity, under the same conditions |
| `ConcurrencyGroups.SharedByDefault` | scripts/delivery_concurrency.py:279-288 | with unread triggers, or without any part, every group counts as shared |
| `RequestLedger.ReadQueue` | scripts/apple_queue.py:85-109 | accepts exactly the valid ledgers: at most 32 rows, unique ids, consistent states, evidence for completed rows |
| `RequestLedger.SettledValid` | scripts/apple_queue.py:265-321 | a settled row is valid exactly when an exit code it holds is a byte and a success holds one with the evidence; a missing exit code is settled as completed and is not valid, a null one is settled as failed and is; everything `execute` returns is valid |
| `RequestLedger.Ledger.Submit` | scripts/apple_queue.py:232-237 | appends unless 32 rows are there |
| `RequestLedger.Ledger.ClassifyAbandoned` | scripts/apple_queue.py:277-283 | every running row becomes interrupted and no other changes |
| `RequestLedger.Ledger.TakeBatch` | scripts/apple_queue.py:286-300 | takes the first pending row and exactly the pending rows that agree with it, so never an empty batch |
| `RequestLedger.Ledger.SettleBatch` | scripts/apple_queue.py:315-322 | settles the whole batch, or changes nothing exactly when the batch is not as taken |
| `RequestLedger.Ledger.Forget` | scripts/apple_queue.py:251-260 | removes one terminal row, refusing a missing or unfinished one |
| `RequestQueue.NoLostWake` | scripts/apple_queue.py:272-324 | in every interleaving without a worker crash or lost wake, a pending request has a worker holding the lock or a wake still to try it |
| `RequestQueue.WakeRepairs` | scripts/apple_queue.py:211-221 | after any faults, a wake that gets the lock restores the guarantee for every faultless continuation |
| `RequestQueue.EveryRun` | scripts/apple_queue.py:272-324 | in every run with crashes every written ledger is valid, one worker at most is active, and the batch-changed refusal is unreachable |
| `RequestQueue.RequestsProgress` | scripts/apple_queue.py:272-322 | between any two moments of any run a request never returns to pending, keeps its batch and result, and once forgotten stays gone |
| `RequestQueue.LiveNeverInterrupted` | scripts/apple_queue.py:275-283 | no step classes a row as interrupted while a live worker executes it |
| `RequestQueue.OthersLeaveAlone` | scripts/apple_queue.py:286-322 | while a worker executes, no step but its own settlement touches its rows |
| `RequestQueue.NextKeeps` | scripts/apple_queue.py:224-324 | every step keeps the ledger, lock, batch and wake invariant |
| `LaunchAdmission.Reservation.Enter` | scripts/owned_linux_admission.py:392-415 | reserves or resumes exactly under the stated guards, and does precisely the protocol's Reserve or Resume step |
| `LaunchAdmission.Reservation.Launch` | scripts/owned_linux_admission.py:417-432 | passes exactly when generation, record and the check for the reserved demand hold and the deadline has not passed; it is the protocol's Arm step followed by Start, or by Expire when late |
| `LaunchAdmission.Reservation.Release` | scripts/owned_linux_admission.py:434-439 | removes exactly its own record in its own phase: the protocol's Release step |
| `LaunchAdmission.SetControl` | scripts/owned_linux_admission.py:446-459 | changes control and revision under the policy lock, refusing an exhausted revision |
| `LaunchAdmission.RecoverReservation` | scripts/owned_linux_admission.py:462-484 | removes a reservation exactly when its identity matches under the present generation, its settlement is observed and both locks are free |
| `LaunchAdmission.LaunchesSeparated` | scripts/owned_linux_admission.py:392-486 | in every interleaving with crashes a removal lies between any two launches |
| `LaunchAdmission.LaunchIsAdmitted` | scripts/owned_linux_admission.py:417-432 | at a launch the policy on disk is available, of the reserved generation, and was checked against the reserved demand |
| `LaunchAdmission.LaunchingIsFinal` | scripts/owned_linux_admission.py:392-432 | a launching record is never resumed, reserved over or launched again |
| `LaunchAdmission.OneReservation` | scripts/owned_linux_admission.py:392-396 | at most one process holds a reservation |
| `FleetPublication.UpsertFleet` | scripts/github_resident_snapshot.py:909-1053 | computes exactly the specified update or refusal |
| `FleetPublication.UpsertSteps` | scripts/github_resident_snapshot.py:939-1053 | an update keeps ids unique and sorted, keeps every other reviewed entry, and moves the node's version one allowed step |
| `FleetPublication.UpsertAgain` | scripts/github_resident_snapshot.py:1015-1018 | offering what is already published is recognised |
| `FleetPublication.SortSorts` | scripts/github_resident_snapshot.py:1040-1045 | entries with distinct ids come out strictly sorted |
| `FleetPublication.EntryLives` | scripts/github_resident_snapshot.py:939-1053 | under its reviewed key an entry is only ever replaced by one of a greater version |
| `FleetPublication.LandingsAdvance` | scripts/github_resident_snapshot.py:1013-1029 | of two landings for a node the later has the greater version, and consecutive ones differ by one allowed step |
| `FleetPublication.EveryRace` | scripts/github_resident_snapshot.py:1263-1296 | for any number of publishers and any push failures: every published list is sorted and keeps the other reviewed entries, versions of a node only increase, by one allowed step between consecutive landings, and no candidate lands twice |
| `FleetPublication.RetryAfterLanding` | scripts/github_resident_snapshot.py:1263-1293 | a publisher whose push landed but was reported failed never lands again, and finds its snapshot published unless a newer one landed |
| `ExecutionRoles.CollectCanaries` | scripts/cmux_execution_roles.py:717-725 | collects canaries by role, refusing exactly a foreign or repeated one |
| `SlotAdmission.MeasuredSlotCapacity` | scripts/cmux_execution_roles.py:862-895 | computes the measured capacities, refusing exactly invalid or foreign evidence |
| `SlotAdmission.MeasuredIsLargest` | scripts/cmux_execution_roles.py:862-895 | a slot's capacity is the largest counted concurrency and some counted receipt shows it |
| `SlotAdmission.GroupCapacities` | scripts/cmux_execution_roles.py:908-938 | groups relevant receipts by contention run, refusing exactly a run that disagrees with itself |
| `SlotAdmission.GroupedFromReceipt` | scripts/cmux_execution_roles.py:908-938 | every grouped figure is some relevant receipt's |
| `SlotAdmission.LeastCapacity` | scripts/cmux_execution_roles.py:1007-1019 | the least capacity of a slot over the runs that measured every claim |
| `SlotAdmission.PhysicalSlotUsage` | scripts/cmux_execution_roles.py:1056-1075 | counts, per slot, the leases that claim it |
| `SlotAdmission.LocalAdmission` | scripts/cmux_execution_roles.py:1078-1171 | admits exactly the admissible workloads, with their claims; a workload of another role than its operation's, or without the capability its operation requires, is invalid |
| `SlotAdmission.RoomIsMeasured` | scripts/cmux_execution_roles.py:1141-1156 | room for a workload is room below the measured capacity |
| `SlotAdmission.OccupancyWasMeasured` | scripts/cmux_execution_roles.py:605-621 | in every run a slot's occupancy is at most the measured capacity and so at most a concurrency some accepted measurement reached with all work validated |
| `SlotAdmission.ExclusiveIsAlone` | scripts/cmux_execution_roles.py:1132-1145 | in every run an exclusive lease is the only lease |
| `NativeBuild.OpenIsUntainted` | scripts/apple_build.py:605-614 | admission under the lock never lets a tainted key through |
| `NativeBuild.Checkout.Execute` | scripts/apple_build.py:597-741 | refuses exactly a quarantined key, an unfinished record or failed admission; every point where the controller may die leaves each tainted key blocked |
| `NativeBuild.Checkout.Finish` | scripts/apple_build.py:683-733 | settles a command: receipt, with exit code 1 for a dependency preparation that lacks its files, then quarantine if it was signalled, then the inflight record goes, with no gap |
| `NativeBuild.Checkout.Recover` | scripts/apple_build.py:745-762 | settles an interrupted run exactly for its own id and an absent, recorded process group |
| `NativeBuild.AnyRun` | scripts/apple_build.py:597-762 | over every run cut off anywhere, no command ever started on a tainted key, and every tainted key is still refused |
| `FleetEnrollment.NodeStatus` | scripts/cmux_fleet.py:804-826 | finds exactly the roles with a current accepted receipt, refusing duplicates |
| `FleetEnrollment.TransitionTo` | scripts/cmux_fleet.py:855-908 | computes exactly the specified transition |
| `FleetEnrollment.EligibleStaysEligible` | scripts/cmux_fleet.py:880-908 | an enrollment that became eligible is still routable under the same receipts and names a class acceptance exactly when an eligible role rests on one |
| `FleetEnrollment.DroppingClassChangesNothing` | scripts/cmux_fleet.py:900-907 | dropping an unused class acceptance changes no role's eligibility |
| `FleetEnrollment.GenerationNeverFalls` | scripts/cmux_fleet.py:873-878 | over every run of transitions and renewals the generation never falls |
| `FleetEnrollment.LeavingQuarantineAdvances` | scripts/cmux_fleet.py:288-307 | leaving quarantine for anything but retirement raises the generation |
| `FleetEnrollment.QuarantineOutlivesReceipts` | scripts/cmux_fleet.py:676-698 | no receipt from before a quarantine, in whatever list it is offered, is again the one an eligible role rests on |
| `FleetEnrollment.OldReceiptsNeverSuffice` | scripts/cmux_fleet.py:676-698 | a list of such receipts alone never makes the node eligible |
| `FleetEnrollment.AdoptedSuffices` | scripts/cmux_fleet.py:1912-1976 | an adopted class receipt alone is enough for the transition to eligible under the same contract generation |
| `FleetEnrollment.ClassReaches` | scripts/cmux_fleet.py:1829-1873 | a class built on one node is adopted exactly by a node equal in architecture, OS version, observed hardware, toolchain and Glaeda generation, and does not chain |

## Left out

- Descriptors, ownership, modes, symbolic links, `fsync` and file-size ceilings: only the file map and the order of writes are modelled.
- Process spawning, signals, bubblewrap, systemd, host probes and clocks: their outcomes are parameters.
- Namespace locking in hot-run: sections under the exclusive or shared namespace lock are taken as given.
- SHA-256, SSH signatures and Git: identities stand for what they digest, signatures are a flag of the entry, a push succeeds only on the head it was built on.
- JSON encoding, regular-expression token checks and schema keys: typed fields take their place.
- YAML scanning, the tokenizer and the splitting of a group into parts: tokens, parts, events and inputs are given as data.
- Reading of references in workflow expressions by pattern: a reference arrives classified as an identity of a given kind or not.
- Comparison and function values in expressions: any result is allowed, except that strings compare ignoring case.
- Timing columns and generation identities of value records, elapsed-time accounting and value-catalog stages: they decide nothing here.
- POSIX paths with exactly two leading slashes, which pathlib keeps apart: resolved paths have one.
- The refresh-interval bounds and byte budgets of fleet snapshots: parameter checks before the update.
- Reasons for an ineligible role or a refused admission: only the decision is modelled.
- Replacement of the admission policy by an installer: it is a step that takes the policy lock like any other writer.
- Ledger byte limits, request waiting and the platform event queue.
- Whole-file tools beside these protocols (bundling, bootstrap probes, benchmarks, labels, disk policy): they would add easier members.
- DirectoryDeletion.DeleteDirectoryContentsBounded: for forests that are not clean only one direction of the exact count is stated, because whether two wanted names collide depends on the scan order.
- HotRuns.AnyRun: the order in which one run of the tool collects before it evicts is not kept; operations come in any order.
- RequestQueue.NoLostWake: a submitter that exits between appending and waking counts as a lost wake.
