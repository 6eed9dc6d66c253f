# Verified model of the publish-contracts core

This project models the decision logic of `publish-contracts`, the tool that deploys and governs the vault contracts, and
proves what that logic promises. `dafny verify dfyconfig.toml` checks all of it.

What is modelled, and where:

- **The governance round protocol** (`GovernModel`, `GovernSafety`, `GovernTheorems`, `GovernPlans`, `GovernRun`, `KeyText`). A run manifest
  on disk, a timelock and the vaults on chain, one govern process, and an environment that ticks the clock, runs pause-all,
  sends Safe transactions of its own and stops the process between any two steps. A Safe send and the save after it are two
  steps, so a crash between them is one of the runs. A send goes out on what the tool read before it: when another party moved
  the operation since, the send reverts, is logged, and ends the process. The timelock is a map from operation id to timestamp
  (absent, done = 1, ready time otherwise). `GovernProcess` is the code: phases and loops over that world, whose every state is
  the last world of a run of the machine, so each theorem about runs holds wherever a method stops. Where the environment keeps
  still, its methods also say exactly when they go through.
- **The wait** (`WaitReady`), and **the Safe owner changes** (`SafeAdmin`) against a linked-list `OwnerManager` of Safe 1.4.1.
- **The frozen transaction counts** (`Counts`, `Reconstruct`, `AcceptedBaseline`, `Baseline`, `Rebuild`, `RunRecords`, `AnchorChain`, `Freeze`, `CountsDir`,
  `Witnesses`, `RetiredStage`): the offline check of a rebuilt baseline, the rebuild, the recursive load of an anchor chain, and the directory the freeze verb
  writes. Hashes are uninterpreted functions; git's stage table at a sha is a parameter.
- **The linker** (`Linker`, `LinkedBuild`, `LinkOrder`, `LinkCode`): the memoised build over a link graph, and splicing addresses into code. The CREATE2
  address and the code hash are uninterpreted functions of the code.
- **The evidence check** (`Evidence`, `EvidenceTheorems`, `EvidencePlaces`, `EvidenceAccepted`, `Replay`): the operations and rounds of an evidence document, and the
  recorder and replayer of chain reads. A check is any adaptive program of reads, given by its next read or its verdict from
  the answers so far.
- **Two planners** (`PlanApply`, `OwnerSigners`), and shared vocabulary (`Basics`, `TextOrder`, `KeySort`, `Decimals`).

Loops of the source are loops here, proved against declarative conditions; the theorems are about those conditions. Where a check
accepts or refuses, one of them says exactly what is accepted in terms of the inputs' own fields (`EvidenceAccepted`, `AcceptedBaseline`,
`RunRecords.RebuildsExactlyWhen`, `PlanApply.VaultsAgreeExactlyWhen`, `SafeAdmin.InEffectExactlyWhen`).

Results a reader may not expect:

- A baseline frozen against a first-ever baseline never loads, and the first one stops loading (`Freeze.FirstBaselineStrandsTheNext`).
- `--cross-check` takes the sha from what the file holds and never looks at its name. A file called otherwise, whose
  sha has no file of its own, is accepted as the anchor, and the baseline frozen against it never loads (`CountsDir.MisnamedReferenceNeverLoads`).
  `CountsDir.FreezeThenLoad` gives the exact condition for a written file to load.
- A CREATE2 library whose name the libs stage also lists can be adopted, and counted, in two stages of one accepted file
  (`Baseline.SharedNameIsCountedTwice`); the table parser does not forbid such a name.
- Nonce conservation is exact for the vaults system only: the rebuild always adds one proof transaction, the gateway sends none
  (`Rebuild.NonceIsConserved`).
- `anchorChainOf` follows the cross-check record of a plain file, which the load never reads; the two agree exactly when the last
  file of the walk has none (`AnchorChain.ListingIsTheWalk`).
- The order of the list given to `buildCreate2Libraries` shows in the result exactly when the list builds and one artifact is listed
  under two names (`LinkOrder.OrderMattersExactlyWhen`).
- The uniqueness of evidence transactions compares JSON text only. A hash given as a one-element list matches the hash pattern and is
  not compared, in a document the whole check accepts (`EvidenceTheorems.ListedHashEscapes`); `EvidencePlaces.NothingIsShared` is
  stated for JSON text.
- Two counts at the ends of an anchor chain agree on the stages of the loading system only: the other system's stages are ignored by
  the comparison (`AnchorChain.LoadedCountsAgree`).
- A replayed check needs to treat a bigint and its decimal text alike, and no code and empty code alike (`Replay.SensitiveCheckDoesNotReplay`).

## Model

| member | source | states |
|---|---|---|
| GovernTheorems.PauseSafety | publish-contracts/src/govern.ts:889-979 | In every run, between a recorded pause-all and a later execute of an unpause by the tool there is a schedule of that same operation sent by the tool, under every interleaving of pauses, Safe cancels, clock ticks, other parties' sends and process stops. |
| GovernTheorems.ExecuteOutranksPauses | publish-contracts/src/govern.ts:928-968 | Wherever a run sends an execute of an unpause that will be mined, the round's schedule is recorded for that operation and every pause on disk has a lower number; a schedule adopted with number 0 is executable only while no pause is recorded. |
| GovernTheorems.ExactlyOnce | publish-contracts/src/govern.ts:890-979 | In every reachable state, per operation the schedules are at most one more than the cancels and the executes at most one; each executed record names a done operation executed once whose read-back passed. |
| GovernTheorems.RevertsAreOthersDoing | publish-contracts/src/govern.ts:890-968 | A send goes out on what was read before it. In every run, a schedule of the tool that reverts has another party's schedule of that operation in the log after its number was reserved; an execute of a done operation has another party's execute after the tool read it not done; an execute of an absent or unready one has an outside cancel after the wait saw it ready. |
| GovernTheorems.CrashesAloneNeverRevert | publish-contracts/src/govern.ts:890-968 | An operation no other party touched never has a reverted schedule or execute, however often the process stopped between a send and its record. |
| GovernTheorems.RoundBookkeeping | publish-contracts/src/govern.ts:1005-1029 | The archived rounds of an unpause row are exactly 1 to r-1, each executed under its own id; the current record is round r; cancelled archives of a round are numbered from 1 without a gap and never executed. |
| GovernTheorems.ArchivesNeverChange | publish-contracts/src/govern.ts:1008-1029 | However a run goes on, restarts included, no archived record is overwritten or dropped. |
| GovernTheorems.RoundOpensOnlyWhenNamed | publish-contracts/src/govern.ts:1020-1029 | A round is archived only by a process that names the row, when the vault reads paused and the round's operation is done with a passed read-back; the record left is the empty next round. |
| GovernTheorems.CancelledArchivedOnlyWhenNamed | publish-contracts/src/govern.ts:1007-1019 | In every run, a cancelled schedule is archived only by a process that names the row, when the record holds an incomplete schedule of that round's operation and the timelock has it no more; the archive is that record and the same round starts empty. |
| GovernTheorems.UnnamedRunsKeepSchedules | publish-contracts/src/govern.ts:1007-1019 | However a run goes on, stops, restarts and outside cancels included, as long as no process names the row its recorded schedule is neither emptied nor replaced. |
| GovernTheorems.ScheduleKeptByStep | publish-contracts/src/govern.ts:1007-1019 | No single step of a process that does not name the row touches its recorded schedule. |
| GovernPlans.OnlyPausedVaultsOfTheSheet | publish-contracts/src/govern.ts:1038-1050 | In every run, an unpause the tool schedules is of a vault the sheet asks for, and at the last plan of that operation the vault read paused, or the operation was on the timelock then and an outside cancel came since; every vault the tool reopens is one the sheet asks for. |
| GovernPlans.PlanInvKept | publish-contracts/src/govern.ts:1038-1050 | Every step keeps what is known of plans, schedules and the sheet. |
| GovernPlans.PlanInvOnRuns | publish-contracts/src/govern.ts:1038-1050 | So does every run. |
| GovernTheorems.CrashAfterScheduleIsAdopted | publish-contracts/src/govern.ts:890-912 | Every run that stops between a schedule and its record goes on, in the next run of the row, to adopt the operation with number 0; it sends nothing, leaves the timelock as it was, and logs nothing but the read of the plan. |
| GovernTheorems.ArchiveKeptByStep | publish-contracts/src/govern.ts:1008-1029 | No single step touches an archived record. |
| GovernTheorems.AdoptionRun | publish-contracts/src/govern.ts:890-912 | Stop, launch, plan and adopt are each possible after a schedule left unrecorded, and lead to the adopted record. |
| GovernSafety.InvKept | publish-contracts/src/govern.ts:890-1061 | Every step of the tool and of the environment keeps the whole invariant. |
| GovernSafety.InvOnRuns | publish-contracts/src/govern.ts:890-1061 | The invariant holds after every run from an empty manifest and timelock. |
| GovernSafety.MemoryKept | publish-contracts/src/runner.ts:225-249 | The process's copy of the records equals the disk; the disk's pauses and counter are never behind it. |
| GovernSafety.LocalsKept | publish-contracts/src/govern.ts:890-979 | How far a row got in memory agrees with its record, after every step. |
| GovernSafety.NumbersKept | publish-contracts/src/runner.ts:221-264 | Pauses and reservations share one strictly growing counter, and the pauses on disk are exactly those that happened. |
| GovernSafety.NumbersMove | publish-contracts/src/runner.ts:221-278 | Only a pause-all and a reservation move the counter, each to a number above everything on disk; no save loses a pause. |
| GovernSafety.SendsKept | publish-contracts/src/govern.ts:901-904 | A schedule the tool sends carries a number reserved before the send. |
| GovernSafety.SchedulesKept | publish-contracts/src/govern.ts:899-909 | A recorded schedule with a number was sent by the tool with that number. |
| GovernSafety.ExecutedKept | publish-contracts/src/govern.ts:958-979 | Executed records keep naming done operations with a passed read-back. |
| GovernSafety.CleanSendsKept | publish-contracts/src/govern.ts:890-967 | The timelock mines only schedules of absent operations and executes of pending ones. |
| GovernSafety.LedgerKept | publish-contracts/src/govern.ts:890-979 | The timelock's ledger: per operation, schedules equal cancels plus one while it is on the timelock, and executes are one exactly when it is done. |
| GovernSafety.TimelockMoves | publish-contracts/src/govern.ts:890-979 | Only a mined schedule, execute or cancel moves an operation on the timelock, each its own and from the state it needs. |
| GovernSafety.MovedByOthers | publish-contracts/src/govern.ts:890-979 | A step of another row or of the environment moves a row's operation only by another party's schedule, execute or cancel. |
| GovernSafety.WatchedKept | publish-contracts/src/govern.ts:890-968 | A row on its way to a send finds the timelock as it read it, or another party's move of its operation is in the log since; every step keeps that. |
| GovernSafety.RevertsKept | publish-contracts/src/govern.ts:890-968 | Every reverted send of the history stays excused by another party's move since the tool's reads. |
| GovernSafety.BookkeepingKept | publish-contracts/src/govern.ts:1007-1045 | Every step keeps the numbering of archives and the shape of the current record. |
| GovernSafety.ScheduleArchived | publish-contracts/src/govern.ts:1011-1016 | Archiving a cancelled schedule under the first free number keeps the archives contiguous and leaves the same round empty. |
| GovernSafety.RoundOpened | publish-contracts/src/govern.ts:1023-1028 | Archiving an executed round and opening the next keeps the archives exactly 1 to r-1. |
| GovernSafety.NumberedAfterPause | publish-contracts/src/runner.ts:251-264 | A numbered schedule and a recorded pause never share a number, and the lower number of the pause means the pause came first. |
| GovernSafety.SendFacts | publish-contracts/src/govern.ts:942-958 | At the send of an unpause its schedule is recorded, was mined by the tool when numbered, and no pause on disk has a higher number. |
| GovernSafety.PausesAreOlder | publish-contracts/src/govern.ts:942-955 | At the send of an unpause every pause on disk has a strictly lower number than the schedule. |
| GovernSafety.ExecuteIsAfterPauses | publish-contracts/src/govern.ts:942-968 | At the send of an unpause, each recorded pause was followed by a schedule of the operation by the tool. |
| GovernSafety.PauseSafeKept | publish-contracts/src/govern.ts:942-968 | Pause safety of the history is kept by every step. |
| GovernSafety.OnlySendReopens | publish-contracts/src/govern.ts:958-968 | Only the execute phase reopens a vault by the tool's hand. |
| GovernModel.FreshFrom | publish-contracts/src/govern.ts:1012-1013 | The search for an archive number ends at the first free number from its start. |
| GovernModel.NextSeqIsNext | publish-contracts/src/runner.ts:220-222 | The next manifest number is one above the highest of the reserved number, the pauses and the recorded schedules. |
| GovernRun.FindFresh | publish-contracts/src/govern.ts:1012-1014 | The counting loop terminates and finds the first free archive number. |
| GovernRun.GovernProcess.constructor | publish-contracts/src/govern.ts:759-827 | The object starts as the empty run of its world. |
| GovernRun.GovernProcess.Take | publish-contracts/src/govern.ts:890-1061 | Taking an enabled step extends the run by exactly that step and leaves every other row alone. |
| GovernRun.GovernProcess.Await | publish-contracts/src/govern.ts:633-648 | Whatever the environment does while the process waits, the rows' records stay the process's own and done operations stay done. |
| GovernRun.GovernProcess.Refuse | publish-contracts/src/govern.ts:953-955 | A refusal ends the process and changes nothing on disk or on chain. |
| GovernRun.GovernProcess.SchedulePhase | publish-contracts/src/govern.ts:890-912 | Phase 1 extends the run and ends with the schedule recorded, every other row untouched; left alone it always goes through, and the round is then executable exactly when the recorded or adopted operation is fit or a new one has no delay. |
| GovernRun.GovernProcess.AdoptOrSend | publish-contracts/src/govern.ts:897-912 | An unrecorded round adopts the operation on the timelock as number 0, or sends its schedule. |
| GovernRun.GovernProcess.SendAndRecordSchedule | publish-contracts/src/govern.ts:901-912 | The number is reserved on disk before the send; left alone the schedule is recorded under a number above every pause, executable exactly without a delay. |
| GovernRun.GovernProcess.SendReserved | publish-contracts/src/govern.ts:903-909 | The send under a reserved number and its record are two steps with a stop possible between; left alone it goes through exactly when the operation is absent, and the record is the operation, that number and the time the timelock holds. |
| GovernRun.GovernProcess.ExecutePhase | publish-contracts/src/govern.ts:958-979 | Phase 2 ends executed on disk, every other row untouched; left alone it goes through exactly when the operation is done with the vault open, or ready and not outranked by a pause. |
| GovernRun.GovernProcess.SendAndReadBack | publish-contracts/src/govern.ts:967-973 | The execute send and the read-back; left alone it goes through exactly when the operation is ready. |
| GovernRun.GovernProcess.ClearAndSend | publish-contracts/src/govern.ts:962-968 | After the last read the send is mined exactly when the operation is ready, which reopens the vault of an unpause. |
| GovernRun.GovernProcess.AfterSend | publish-contracts/src/govern.ts:968-979 | After a mined execute the read-back decides the record, and a stop leaves the execution to be adopted. |
| GovernRun.GovernProcess.WaitRow | publish-contracts/src/govern.ts:693-699 | A row leaves the wait exactly when its operation is ready or done, as fit as it was. |
| GovernRun.GovernProcess.ReadBackAndRecord | publish-contracts/src/govern.ts:962-979 | An execution is recorded exactly when the vault reads open, under the operation the row is about. |
| GovernRun.GovernProcess.CancelPhase | publish-contracts/src/govern.ts:915-926 | The cancel row ends with its own operation cancelled on disk; left alone it goes through exactly when the operation is not done. |
| GovernRun.GovernProcess.RecordGone | publish-contracts/src/govern.ts:921-925 | The cancel of the row's operation is recorded exactly when it reads absent. |
| GovernRun.GovernProcess.RunRound | publish-contracts/src/govern.ts:982-988 | A one-round row that returns is complete on disk, other rows untouched; left alone a cancel row goes through unless its operation is done, any other exactly when its round is fit. |
| GovernRun.GovernProcess.FinishRound | publish-contracts/src/govern.ts:984-988 | The rest of a one-round row, with the same exact condition from its recorded schedule on. |
| GovernRun.GovernProcess.ArchiveIfCancelled | publish-contracts/src/govern.ts:1007-1019 | A row is archived and its round emptied exactly when this run names it, its record is an incomplete schedule and the timelock holds nothing of it; any other record stays, and so does every other row. |
| GovernRun.GovernProcess.ReopenIfPaused | publish-contracts/src/govern.ts:1020-1037 | An executed row whose vault reads paused opens the next round if named and is refused otherwise; a complete row is left as it is. |
| GovernRun.GovernProcess.SettleRound | publish-contracts/src/govern.ts:1007-1037 | Which round the row is in: the same round again after a cancel, the next after an executed one, or the one it was in. |
| GovernRun.GovernProcess.PlanOrSkip | publish-contracts/src/govern.ts:1038-1049 | A row the sheet does not ask for is recorded as skipped and no more; a row with nothing recorded, nothing on the timelock and an open vault is refused; any other is planned. |
| GovernRun.GovernProcess.OpenNow | publish-contracts/src/govern.ts:1007-1049 | What becomes of an unpause row, and the record it goes on with, is decided by its record, the timelock, the vault, the sheet and the named row alone. |
| GovernRun.GovernProcess.ScheduleRow | publish-contracts/src/govern.ts:1007-1051 | A row of the set ends scheduled or complete, or the process is refused; left alone it opens and becomes executable as the state at the call decides. |
| GovernRun.GovernProcess.ScheduleSet | publish-contracts/src/govern.ts:1003-1052 | After the loop every row of the set is complete on disk or live with its schedule recorded; left alone it goes through exactly when no row is refused, and the live rows are exactly those that open. |
| GovernRun.GovernProcess.ExecuteSet | publish-contracts/src/govern.ts:1056-1060 | After the loop every live row is complete on disk and no other record moved; left alone it goes through exactly when every row is fit at the start, so no row disturbs another. |
| GovernRun.GovernProcess.WaitSet | publish-contracts/src/govern.ts:1055 | The wait for the set moves nothing on disk, leaves every row as fit as it was, and goes through when all are fit. |
| GovernRun.GovernProcess.ExecuteLive | publish-contracts/src/govern.ts:1053-1060 | The second half of the set: a row that a pause outranks is refused before the wait, with nothing on disk or chain moved; left alone it goes through exactly when every live row is fit. |
| GovernRun.GovernProcess.RunSet | publish-contracts/src/govern.ts:1002-1061 | A set that returns has every row complete on disk, with every world on the way a run of the machine; left alone it returns exactly when no row is refused and every live row is fit, and then every vault it names that the sheet asks for is executed on disk and reads open. |
| GovernRun.StepKeepsOthers | publish-contracts/src/govern.ts:890-1061 | A step of one row leaves the records and progress of all others alone. |
| GovernRun.RowIsKnown | publish-contracts/src/govern.ts:890-1061 | What the phases rely on about a row holds in every reachable world. |
| GovernRun.SameFate | publish-contracts/src/govern.ts:1002-1061 | A row that finds its record, its operations, its vault, the time and the pauses as they were opens, goes and executes the same. |
| GovernRun.StepKeepsSame | publish-contracts/src/govern.ts:890-1061 | A step of one row leaves all of that as it was for every other row. |
| KeyText.KeysNeverCollide | publish-contracts/src/govern.ts:498 | The manifest keys of records, executed archives and cancelled archives of two rows are different texts unless they are one key, for any names of the two rows that hold no colon and tell them apart. |
| KeyText.RoundsHaveTheirOwnLabels | publish-contracts/src/govern.ts:495-498 | Two rounds never share a salt label, under the same condition on their two rows. |
| KeyText.ToolKeysNeverCollide | publish-contracts/src/govern.ts:486-498 | With the tool's own row names no two keys share a text. |
| KeyText.RowNamesTellApart | publish-contracts/src/govern.ts:486-498 | The tool's names tell any two of its rows apart and hold no colon. |
| Decimals.DigitsReadBack | publish-contracts/src/govern.ts:498 | The decimal text of a round number reads back as the number. |
| Decimals.DecimalReadsBack | publish-contracts/src/evidence-check.ts:1352-1356 | The decimal text of any integer is a numeral, sign and no leading zero, and reads as that integer. |
| WaitReady.AcceptedWait | publish-contracts/src/govern.ts:690 | The accepted wait is what was asked, 3600 by default, and never above 3600 on Base. |
| WaitReady.LatestIs | publish-contracts/src/govern.ts:692-698 | The latest ready time bounds every operation that still waits and is one of theirs. |
| WaitReady.Poll | publish-contracts/src/govern.ts:692-698 | One pass names the first operation that is gone, or the latest ready time of those that wait. |
| WaitReady.Clock.Turn | publish-contracts/src/govern.ts:691-717 | One turn returns an outcome without touching anything, warps to one second past the latest ready time, or sleeps. |
| WaitReady.Clock.WaitOn | publish-contracts/src/govern.ts:691-718 | The loop terminates, never sleeps where it can warp, and sleeps only on looks within the accepted wait, the first of them the state at the call. |
| WaitReady.Clock.Wait | publish-contracts/src/govern.ts:688-719 | It returns only when every operation is ready or done; on a fork that is not Base, where the timelock rests, after at most one warp, to exactly one second past the latest ready time; elsewhere it exits pending at the first look whose remaining time is above the accepted wait and never sleeps on such a look. On Base it never warps, whatever is injected: the clock moves by the sleeps alone. |
| WaitReady.WarpSettles | publish-contracts/src/govern.ts:700-707 | One second past the latest ready time nothing waits any more. |
| WaitReady.LatestShrinks | publish-contracts/src/govern.ts:692-698 | Over a resting timelock the latest ready time does not grow as time passes. |
| SafeAdmin.SentIsAccepted | publish-contracts/src/govern.ts:1949-1972 | What the tool sends, with the predecessor taken from the owner list, the linked-list OwnerManager accepts; the roster stays well formed with the intended owners, is then what the row asked for, and a swap leaves the threshold alone. |
| SafeAdmin.SendsExactlyTheAcceptable | publish-contracts/src/govern.ts:379-400 | A change the roster does not already show is sent exactly when some predecessor would make the Safe accept it. |
| SafeAdmin.InEffectExactlyWhen | publish-contracts/src/govern.ts:360-372 | A row is in effect exactly when the roster already is what it asks for, over the listed owners and the threshold: added and equal, removed and equal, swapped, or equal. Only the threshold differs exactly when the owner half holds and the threshold does not. |
| SafeAdmin.RosterStaysWellFormed | publish-contracts/src/govern.ts:1949-1972 | Any sequence of rows leaves a well-formed roster, and the Safe accepts every call sent on the way. |
| SafeAdmin.GetOwners | publish-contracts/src/govern.ts:1970 | The walk from the sentinel lists exactly the owners, in order, and terminates. |
| SafeAdmin.AddAccepted | publish-contracts/src/govern.ts:423-427 | Adding an owner is accepted, puts it first in the list and passes the read-back. |
| SafeAdmin.RemoveAccepted | publish-contracts/src/govern.ts:416-432 | Removing the owner at any place with its predecessor is accepted, removes just that owner and passes the read-back. |
| SafeAdmin.SwapAccepted | publish-contracts/src/govern.ts:416-437 | Swapping the owner at any place with its predecessor is accepted, replaces it in place and passes the read-back. |
| Counts.EffectiveCounts | publish-contracts/src/counts.ts:155-166 | The override succeeds exactly when every adopted stage has a count and sent between 0 and it, and gives those stages the transactions sent. |
| Counts.OverriddenAt | publish-contracts/src/counts.ts:155-166 | Per stage: the sent transactions of an adopted stage, the frozen count of any other. |
| Counts.SumIsOrderFree | publish-contracts/src/counts.ts:135-137 | A sum does not depend on the order of the distinct keys. |
| Counts.KeysOfTheTable | publish-contracts/src/counts-reconstruct.ts:57-58 | A key is a stage the system counts, or the Safe stage but for the gateway; the other stages of the table are exactly the ones left out. |
| Counts.MergeKeepsCounts | publish-contracts/src/counts.ts:256-265 | A merge changes no count on disk and holds every count of the run. |
| Counts.MergesExactlyWhen | publish-contracts/src/counts.ts:256-265 | With systems two sets of counts merge if and only if some file could hold both, and the merge is the least such file. |
| Rebuild.EffectiveUndoesRaised | publish-contracts/src/counts-reconstruct.ts:199-208 | Counting each adopted stage at what the deployer sent turns the rebuilt baseline back into the measured counts, within the bounds the override demands. |
| Rebuild.NonceIsConserved | publish-contracts/src/counts.ts:135-166 | For every run the rebuild accepts, the final deployer nonce from the recorded start over the effective counts of the baseline is the nonce the run recorded if and only if the system is the vaults system. |
| Witnesses.GatewayIsOneShort | publish-contracts/src/counts-reconstruct.ts:196-198 | A gateway run the rebuild accepts whose recorded nonce the effective counts do not give back. |
| Rebuild.DiffMember | publish-contracts/src/counts-reconstruct.ts:166-171 | The difference list names exactly the stages of this system whose counts differ, each with both counts. |
| Rebuild.DiffIsTheOnlyListing | publish-contracts/src/counts-reconstruct.ts:166-171 | The difference list is the only one in ascending stage order that names exactly those stages. |
| Rebuild.GatherRun | publish-contracts/src/counts-reconstruct.ts:199-208 | The loop succeeds exactly when every adopted stage has complete records, and then lists every record and raises each stage by its records. |
| Rebuild.RebuildBody | publish-contracts/src/counts-reconstruct.ts:188-212 | The body is rebuilt exactly from a concluded run with complete records that the table agrees with. |
| Rebuild.AddCrossCheck | publish-contracts/src/counts-reconstruct.ts:214-223 | The cross-check succeeds exactly when the accepted stages are the differing ones and the file with the record verifies. |
| Rebuild.ReconstructBaseline | publish-contracts/src/counts-reconstruct.ts:181-225 | The rebuild succeeds exactly on a good body with proven records and exactly the differing stages accepted, and returns the baseline with the record of the differences; with a reference the verb accepts its second verification never refuses. |
| RunRecords.RebuildsExactlyWhen | publish-contracts/src/counts-reconstruct.ts:188-222 | A run is rebuilt if and only if it concluded, for this sha on chain 918453, measured exactly the system's stages, ended at the start nonce plus what it measured plus one, every adopted stage has records and sent what was measured, the table agrees, the records are proven, and the accepted stages are exactly those that differ from the reference, none without one. |
| RunRecords.RebuiltEntries | publish-contracts/src/counts-reconstruct.ts:199-210 | The adopted entries of the file are the records of the run, as many as there are: an entry stands there if and only if a record says the same of the same library, stage, name, artifact, address and hash. |
| RunRecords.RecordStands | publish-contracts/src/counts-reconstruct.ts:206 | Each record stands at its own place, behind the records before it, with its own five fields. |
| RunRecords.EntryIsARecord | publish-contracts/src/counts-reconstruct.ts:206 | Every place of the entries is the place of a record. |
| RunRecords.RebuiltCounts | publish-contracts/src/counts-reconstruct.ts:207 | Each adopted stage counts what the run measured plus one for each of its records, every other stage what it measured. |
| RunRecords.RebuiltFromTheRun | publish-contracts/src/counts-reconstruct.ts:210-221 | The file carries the run's sha, chain, block and measured counts, and of a reference its sha and file hash. |
| RunRecords.RebuiltCrossCheck | publish-contracts/src/counts-reconstruct.ts:214-220 | What is recorded as accepted is exactly each stage of this system that differs from the reference, with both counts. |
| Reconstruct.VerifyReconstruction | publish-contracts/src/counts-reconstruct.ts:64-120 | The offline check, loop by loop, accepts exactly the files that are consistent with the table: header, stage names, entries, full adoption per stage, counts that add up, a well-formed cross-check record. |
| AcceptedBaseline.AcceptedExactlyWhen | publish-contracts/src/counts-reconstruct.ts:64-120 | A rebuilt file is accepted if and only if: it is from a run of its own sha on chain 918453; its counts and measured counts name each stage of the system once and no other but the other system's; each count is the measured one plus the number of the stage's entries; entries have a stage, an address and a hash and share neither library nor address; an adopting stage has exactly the table's libraries, by name and artifact; and the cross-check halves name one other file with well-formed differences. |
| AcceptedBaseline.FullyAdoptedIs | publish-contracts/src/counts-reconstruct.ts:91-95 | Where no entry is twice, comparing the listings as multisets decides that each adopting stage adopts every library the table gives it, once, and no other. |
| Reconstruct.GatherEntries | publish-contracts/src/counts-reconstruct.ts:80-90 | The loop with its seen sets accepts exactly entries of known stages with address and hash, none twice by name or address, and gathers them per stage. |
| Reconstruct.CheckAdoptions | publish-contracts/src/counts-reconstruct.ts:91-95 | Every adopting stage adopts exactly what the table lets it adopt. |
| Reconstruct.CheckSums | publish-contracts/src/counts-reconstruct.ts:96-99 | Every count is its measured count plus its adopted creations. |
| Reconstruct.CheckCross | publish-contracts/src/counts-reconstruct.ts:100-118 | The cross-check record is whole, names one file, and each accepted difference is well formed. |
| Baseline.OneAdopter | publish-contracts/src/counts-reconstruct.ts:46-54 | Over a table with distinct stage names and no repeated listing, each listed CREATE2 library is adoptable by the first stage that lists it and by no other but libs; by exactly one stage if and only if the libs stage lists no library of its name. |
| Baseline.AdoptableExactly | publish-contracts/src/counts-reconstruct.ts:46-54 | A CREATE2 entry of the table, with its own artifact, is adoptable by a stage exactly when the stage lists it and no stage before it does; the libs stage adopts the libraries of the table. |
| Baseline.NoLibraryTwice | publish-contracts/src/counts-reconstruct.ts:80-95 | Any two entries of an accepted file name two libraries where the table keeps the names of the libs libraries and the CREATE2 libraries apart; otherwise a repeat is one entry in libs and one elsewhere, under a name in both. |
| Baseline.CountedTwiceExactlyWhen | publish-contracts/src/counts-reconstruct.ts:80-95 | An accepted file counts a library in two stages if and only if it adopts in libs and in the first stage that lists a CREATE2 library of the name of a libs library. |
| Baseline.SharedNameIsCountedTwice | publish-contracts/src/counts-reconstruct.ts:46-99 | Such a table and such an accepted file exist. |
| Baseline.AdoptionIsBounded | publish-contracts/src/counts-reconstruct.ts:80-99 | The adopted creations of an accepted file never exceed the libraries of the table. |
| Baseline.TotalIsMeasuredPlusAdopted | publish-contracts/src/counts-reconstruct.ts:96-99 | An accepted file's total count is its total measured plus the number of its adopted entries. |
| AnchorChain.LoadFrozenFile | publish-contracts/src/counts.ts:55-68 | One file loads exactly when it is for its sha, not marked adopted unless allowed, has valid counts, and, when rebuilt, verifies against the table it answers to. |
| AnchorChain.FileAnswersTo | publish-contracts/src/counts.ts:55-68 | A rebuilt file asked for by its own sha loads if and only if it is in order and verifies against the loaded table; as an earlier file, if and only if it verifies against git's table of its sha when git has one, else against the loaded one. |
| AnchorChain.LoadAnswersToTables | publish-contracts/src/counts.ts:109-119 | Whatever loads verified against the loaded table, and every other file of its directory against its own. |
| AnchorChain.AnchorsAnswerToTheirOwn | publish-contracts/src/counts.ts:109-119 | Every file a load walks behind the first verified against the table of its own sha where git has one. |
| RetiredStage.RetiredAnchorLoads | publish-contracts/src/counts.ts:48-68 | A three-file directory whose anchor carries a stage the loaded table no longer has, which that table refuses and git's table of its sha accepts: the chain loads. |
| AnchorChain.OtherFrozenFiles | publish-contracts/src/counts.ts:73-79 | The other files load exactly when each of them does. |
| AnchorChain.LoadFrozenChain | publish-contracts/src/counts.ts:109-133 | The recursive load terminates on any directory and is the chain definition: cycle, depth, anchor bytes and counts. |
| AnchorChain.ChainEndsAtPlain | publish-contracts/src/counts.ts:100-133 | A load that succeeds visits at most eight files, none twice, and with at least one hop ends at a plain measured file. |
| AnchorChain.CountsAgreeAlongChain | publish-contracts/src/counts.ts:126-129 | Along a chain a stage no accepted list names has one count from end to end. |
| AnchorChain.LoadedCountsAgree | publish-contracts/src/counts.ts:109-133 | The counts loaded agree with the last file of the chain on every stage of this system that no accepted list names. |
| Witnesses.OtherSystemMayDiffer | publish-contracts/src/counts.ts:126-129 | A two-file directory whose chain loads while its ends count a stage of the other system differently. |
| AnchorChain.AnchorChainOf | publish-contracts/src/counts.ts:87-97 | The listing loop follows the cross-check records to the first file without one, or fails on depth or a file that does not load. |
| AnchorChain.ListingIsTheWalk | publish-contracts/src/counts.ts:87-133 | The listing is exactly the anchors the load walked if and only if the file the walk ends at carries no cross-check record. |
| Witnesses.PlainRecordIsFollowed | publish-contracts/src/counts.ts:87-97 | A plain file alone with a record loads while the listing follows the record and fails. |
| Rebuild.CrossCheckAlwaysVerifies | publish-contracts/src/counts-reconstruct.ts:100-118 | A body that verifies still verifies once the differences from any valid reference are recorded. |
| Rebuild.RebuiltVerifies | publish-contracts/src/counts-reconstruct.ts:211-223 | Whatever reference the verb accepts, the rebuilt file verifies with its record and has valid counts. |
| Freeze.NewFileLoadsExactlyWhen | publish-contracts/src/counts.ts:109-133 | A new file with a record loads from its directory if and only if the other files load, its record is the hop to its anchor, and that anchor's walk has room under the depth bound and ends at a plain file. |
| Freeze.WalkLoads | publish-contracts/src/counts.ts:109-133 | An anchor whose walk fits loads in the directory with the new file. |
| Freeze.LoadedIsUsable | publish-contracts/src/counts.ts:109-133 | An anchor that loads beside the new file had such a walk before. |
| Freeze.WalkDoesNotReturn | publish-contracts/src/counts.ts:109-111 | A walk that ends at a plain file never comes back to its start. |
| Freeze.FirstBaselineStrandsTheNext | publish-contracts/src/counts.ts:115-125 | A baseline frozen against a first-ever baseline never loads, and the first one stops loading too. |
| Witnesses.FirstBaselineIsStranded | publish-contracts/src/counts.ts:115-125 | A first baseline that loads alone, and a second frozen against it: in the directory of both neither loads. |
| CountsDir.CountsDirectory.constructor | publish-contracts/src/counts.ts:20-26 | The directory starts with the files given. |
| CountsDir.CountsDirectory.WriteFrozen | publish-contracts/src/counts.ts:185-200 | A new sha is written as given; an existing file only gains keys, and every count on disk and of the run is kept; it succeeds exactly when the counts are valid and mergeable. |
| CountsDir.LastMeasured | publish-contracts/src/counts.ts:82-84 | The search returns a file no other is measured after, in whatever total order times are compared. |
| CountsDir.CountsDirectory.LatestOther | publish-contracts/src/counts.ts:82-84 | The anchor by default is a file no other file is measured after, in the order of the runtime's locale, and there is none exactly when there is no other file. |
| CountsDir.CountsDirectory.ChooseReference | publish-contracts/scripts/freeze-counts.ts:50-64 | The choice succeeds exactly when the named file loads and is for another sha, whatever it is called, or every other file loads, and gives that file's sha, counts and hash. |
| CountsDir.CountsDirectory.FreezeFromAdoptedRun | publish-contracts/scripts/freeze-counts.ts:43-70 | The verb succeeds exactly when an anchor is settled, the run rebuilds against it and the file can be written; a new sha then holds exactly the rebuilt file, which loads exactly when it rests in the directory; a failure changes nothing. |
| CountsDir.CountsDirectory.RebuildAndWrite | publish-contracts/scripts/freeze-counts.ts:65-69 | With the anchor settled: the exact condition of the rebuild and the write. |
| CountsDir.SecondVerifyAddsNothing | publish-contracts/src/counts-reconstruct.ts:223 | Under the loaded table the second verification adds nothing to the condition. |
| CountsDir.RecordIsHop | publish-contracts/src/counts-reconstruct.ts:214-223 | The record the rebuild makes is the hop the load looks for exactly when the directory's own file of that sha has the bytes compared and compares the same. |
| CountsDir.FreezeThenLoad | publish-contracts/scripts/freeze-counts.ts:43-70 | A file written for a new sha loads from the same directory, with the counts written, if and only if it is the first, or the directory holds the reference under its sha as it was compared, every other file loads and the reference's walk has at most seven files and ends at a plain one. |
| CountsDir.MisnamedReferenceNeverLoads | publish-contracts/scripts/freeze-counts.ts:53-60 | A usable cross-check file whose sha has no file of its own is settled on, and what is frozen against it never loads. |
| TextOrder.SortedAscends | publish-contracts/src/counts-reconstruct.ts:170 | The sorted key listing is ascending. |
| TextOrder.BelowExactlyWhen | publish-contracts/src/counts-reconstruct.ts:170 | The order is by code unit: at the place where two texts part, the first ends or has the lower one. |
| Linker.BuildsExactlyWhenLinkable | publish-contracts/src/libs-adopt.ts:112-135 | A library builds if and only if every artifact its links reach is listed, has usable code, 20-byte sites and no placeholder left, and no chain of links comes back on itself. |
| Linker.StackDoesNotMatter | publish-contracts/src/libs-adopt.ts:115-132 | What a library builds to does not depend on the stack it is asked from. |
| Linker.MemoIsSound | publish-contracts/src/libs-adopt.ts:116-117 | A memoised answer equals the plain recursive definition under the stack it is asked for. |
| Linker.Builder.constructor | publish-contracts/src/libs-adopt.ts:113-114 | The memo starts empty. |
| Linker.Builder.Build | publish-contracts/src/libs-adopt.ts:115-132 | The memoised depth-first build terminates and equals the plain recursive definition, result and error, and only ever adds sound entries to the memo. |
| Linker.Builder.PatchLinks | publish-contracts/src/libs-adopt.ts:124-125 | The patch loop equals filling the sites by recursion, failing at the same site. |
| Linker.Builder.BuildEach | publish-contracts/src/libs-adopt.ts:133 | The loop over the list ends with every library in the memo or with the error of one of them. |
| Linker.BuildLibraries | publish-contracts/src/libs-adopt.ts:112-135 | The build succeeds exactly when each listed library resolves on its own, and returns exactly those results, which LinkedBuild describes by their code. |
| LinkedBuild.BuiltIs | publish-contracts/src/libs-adopt.ts:124-131 | Every built library has its listed name and artifact, the CREATE2 address of its own resolved creation code, and the hash of its own runtime code. |
| LinkedBuild.BuiltCreation | publish-contracts/src/libs-adopt.ts:106-124 | Character by character, its creation code is the artifact's outside the 20-byte sites, and inside each the folded address of the built library the link names. |
| LinkedBuild.BuiltRuntime | publish-contracts/src/libs-adopt.ts:106-128 | The same for its runtime code, with the library's own address after 73, all folded. |
| LinkedBuild.ResolvedCharacters | publish-contracts/src/libs-adopt.ts:118-125 | Filling disjoint sites keeps the length, writes each address at its site and nothing elsewhere. |
| LinkedBuild.LinkedIsBuilt | publish-contracts/src/libs-adopt.ts:118-125 | What a built library links is built too, and its address is the one the link resolves to. |
| LinkedBuild.PlaceholderExactlyWhen | publish-contracts/src/libs-adopt.ts:126 | Code is refused for a placeholder exactly when the text holds the three characters that open one. |
| LinkedBuild.SelfPushExactlyWhen | publish-contracts/src/libs-adopt.ts:47-51 | Runtime code is a library's exactly when it starts with 73 and forty zeros. |
| Linker.ListBuildsExactlyWhenLinkable | publish-contracts/src/libs-adopt.ts:112-135 | The whole list resolves exactly when nothing any of its libraries links is missing, malformed or circular. |
| LinkOrder.OrderDoesNotMatter | publish-contracts/src/libs-adopt.ts:112-135 | A listing that does not build, or has one name per artifact, builds to the same result in every order. |
| LinkOrder.NamesAreLabels | publish-contracts/src/libs-adopt.ts:115-132 | What a library builds to, or why it does not, depends on the listed artifacts alone but for the name it is given. |
| LinkOrder.OtherOrderDiffers | publish-contracts/src/libs-adopt.ts:114-129 | A listing that builds with an artifact under two names has an order that builds to something else. |
| LinkOrder.OrderMattersExactlyWhen | publish-contracts/src/libs-adopt.ts:112-135 | Every order of a listing builds to the same result if and only if the listing does not build or no artifact is listed under two names. |
| LinkCode.LinkCreationCode | publish-contracts/src/deploy-implementation.ts:83-96 | Linking succeeds only when the build's and the live library names are the same set, reports exactly the missing and extra names otherwise, and returns the code with every site filled and no placeholder. |
| LinkCode.LinkedCharacters | publish-contracts/src/deploy-implementation.ts:93 | For 20-byte disjoint sites in range the length is kept, each site holds the folded address of its library without the 0x, and nothing else changes. |
| LinkCode.SiteOrderDoesNotMatter | publish-contracts/src/deploy-implementation.ts:93 | The order of the sites does not matter. |
| LinkCode.SiteReadsBack | publish-contracts/src/deploy-implementation.ts:173-178 | Reading a site of linked code returns the address written there. |
| LinkCode.ReadLibraries | publish-contracts/src/deploy-implementation.ts:173-178 | The reading loop gives each library the address at all of its sites, or names one that reads two. |
| LinkCode.LinkThenRead | publish-contracts/src/deploy-implementation.ts:83-178 | Reading linked code back gives every library the address it was linked with, up to letter case, and none two. |
| Evidence.SharedProblems | publish-contracts/src/evidence-check.ts:97-106 | One pass with a seen map is silent exactly when no two operations share the field. |
| Evidence.OperationProblems | publish-contracts/src/evidence-check.ts:96-117 | The check is silent exactly when nothing is shared and every operation has its shape and, unless marked, its delay. |
| Evidence.RehearsalRowProblems | publish-contracts/src/evidence-check.ts:561-580 | Silent exactly when production has no row, or every rehearsal row is known, unrepeated and, for cancel, complete. |
| Evidence.StepRoundProblems | publish-contracts/src/evidence-check.ts:696-702 | The loop over the sorted entries is silent exactly when the rounds are 1 to n, none twice, each scheduled after the one before executed. |
| Evidence.RoundProblems | publish-contracts/src/evidence-check.ts:694-703 | The same for every unpause step. |
| Evidence.GovernEntryProblems | publish-contracts/src/evidence-check.ts:692-693 | Silent exactly when every govern entry is an unpause with a positive integer round. |
| Evidence.GovernProblems | publish-contracts/src/evidence-check.ts:690-703 | Silent exactly when every required step is there, every entry is an unpause and the rounds of every step are in order. |
| Evidence.ForbidCancelFields | publish-contracts/src/evidence-check.ts:91-93 | Silent exactly when no executed operation carries a cancel field. |
| Evidence.CheckEvidence | publish-contracts/src/evidence-check.ts:690-726 | The governance part of the check is silent exactly on the documents described by the conditions above. |
| EvidencePlaces.NothingIsShared | publish-contracts/src/evidence-check.ts:96-106 | If nothing is reported, no two entries of the document, whatever lists they stand in, hold one schedule transaction, one execute transaction (the cancel of a rehearsal cancel row counts as one) or one operation id as JSON text. |
| EvidencePlaces.EveryEntrySucceeded | publish-contracts/src/evidence-check.ts:96-117 | If nothing is reported every entry of every list shows a mined schedule and a mined end, two transactions; no entry but a rehearsal row says anything of a cancel, and a cancel row no execute. |
| EvidencePlaces.OperationAt | publish-contracts/src/evidence-check.ts:726 | The operations checked are the entries of all eight lists, each with its own fields. |
| EvidenceAccepted.AcceptedExactlyWhen | publish-contracts/src/evidence-check.ts:690-726 | The governance check is silent on a document if and only if every entry of its lists shows its two transactions and its delay, no two share one, none but the rehearsal rows speaks of a cancel, the rows are the known ones, once each, and the unpause entries are of known steps with the required ones there, no round twice, and each round after the first behind an executed one before it; production has no rehearsal parts. |
| EvidenceAccepted.GovernIs | publish-contracts/src/evidence-check.ts:690-703 | The sorted pass over each step accepts exactly the entries of which no round is twice and each but the first follows, after its execution, the one before it. |
| EvidenceTheorems.ListedHashEscapes | publish-contracts/src/evidence-check.ts:96-110 | Such a case exists: a production document of two unpauses whose schedule hash is the same one-element list is accepted by the whole governance check. |
| EvidenceTheorems.MarkedIsCancelRow | publish-contracts/src/evidence-check.ts:88-90 | Whatever fields the document carries, an operation is marked as a cancel only if it is the cancel row of a rehearsal. |
| EvidencePlaces.FloorHasOneException | publish-contracts/src/evidence-check.ts:111-117 | If nothing is reported every entry of every list keeps the delay, 172800 s in production and 900 s in a rehearsal, except the cancel row of a rehearsal, of which there is one at most and none in production. |
| EvidenceTheorems.RoundsAreOneToN | publish-contracts/src/evidence-check.ts:694-703 | If nothing is reported the entries of every unpause step name, or for the first may leave out, exactly the rounds 1 to n, and a required step has its first. |
| EvidenceTheorems.OneEntryPerRound | publish-contracts/src/evidence-check.ts:697-698 | No two entries stand for one round of one step, and every entry is of an unpause step and stands for a round. |
| EvidenceTheorems.IntervalsAreOrdered | publish-contracts/src/evidence-check.ts:700-701 | Of two rounds of a step the later is scheduled after the earlier executed, and each takes its delay. |
| EvidenceTheorems.AccumulatedDelay | publish-contracts/src/evidence-check.ts:694-726 | With whole-second block times the last execute of a step with n rounds is at least n floors plus n-1 seconds after its first schedule. |
| KeySort.SortFills | publish-contracts/src/evidence-check.ts:696 | A stable sort puts key k at place k-1 exactly when the keys are 1 to n, none twice. |
| KeySort.SortKeeps | publish-contracts/src/evidence-check.ts:696 | The sort is a permutation in ascending order. |
| Replay.RecordedReadsBack | publish-contracts/src/evidence-check.ts:1306-1359 | Recording an answer makes exactly the queries of its key answer what stands in for it, and moves no other. |
| Replay.ReadBackStandsIn | publish-contracts/src/evidence-check.ts:1352-1356 | What is recorded stands in for the live answer by value: of a bigint read the numeral of that very number, of no code and no storage 0x, of anything else itself. |
| Replay.StandInTellsNumbers | publish-contracts/src/evidence-check.ts:1352-1356 | One recorded text stands in for one number only. |
| Replay.OneAnswerExactlyWhen | publish-contracts/src/evidence-check.ts:1303-1357 | Two queries share a recorded answer if and only if they ask the same of one address, hash or slot in any letter case. |
| Replay.Recorder.constructor | publish-contracts/src/evidence-check.ts:1326-1328 | The recorder starts with an empty fixture. |
| Replay.Recorder.Ask | publish-contracts/src/evidence-check.ts:1328-1357 | The live answer passes through unchanged and is recorded; a read that throws records nothing. |
| Replay.RunRecorded | publish-contracts/src/evidence-check.ts:1607-1612 | A check run through the recorder reports what it reports live and leaves the recording of its reads. |
| Replay.RecordThenReplay | publish-contracts/src/evidence-check.ts:1303-1359 | For any adaptive check that does not tell an answer from what stands in for it by value, over any chain that answers each key consistently, the replay makes the same reads, each answered by what stands in for the live answer, and finds exactly the same problems. |
| Replay.ReplayNeverMisses | publish-contracts/src/evidence-check.ts:1305-1323 | If the live chain answered every read, the replay never misses one. |
| Replay.SensitiveCheckDoesNotReplay | publish-contracts/src/evidence-check.ts:1352-1356 | The condition is needed: a check that insists on a bigint passes live and fails on its own fixture. |
| PlanApply.PayloadVector | publish-contracts/src/apply-receipt.ts:73-100 | The loop accepts exactly payloads of known, unrepeated buckets with weights in range, nothing on the retired one, 10000 in all, and keeps the entries that weigh something or are eligible. |
| PlanApply.ListTestIsExact | publish-contracts/src/apply-receipt.ts:123-127 | The length, set-size and membership test decides that the two lists name the same vaults, each once, so the eligible list repeats nothing. |
| PlanApply.Plan | publish-contracts/src/apply-receipt.ts:111-132 | Planning succeeds exactly when the receipt may be applied, its digest agrees, the payload is good and its vaults are the eligible ones. |
| PlanApply.ArrangedIsRegistryOrder | publish-contracts/src/apply-receipt.ts:128-131 | Sorting by registry place puts the k-th eligible vault at place k. |
| PlanApply.RouterVector | publish-contracts/src/apply-receipt.ts:111-132 | A planned vector is the eligible list in order up to address case, duplicate free, with as many weights, summing to 10000. |
| PlanApply.WeightsLandOnTheirVaults | publish-contracts/src/apply-receipt.ts:80-99 | Every bucket's weight stands on the vault of the bucket's own key, conservative yield on USDC, protocol tokens on PROTO, real-world assets on RWA; what was dropped weighed 0. |
| PlanApply.EveryPlaceIsABucket | publish-contracts/src/apply-receipt.ts:80-99 | Every place of the vector carries the weight of one bucket of the payload on the vault of that bucket's key. |
| PlanApply.BucketIsFor | publish-contracts/src/apply-receipt.ts:18-20 | Which bucket is for which vault. |
| PlanApply.VaultsAgreeExactlyWhen | publish-contracts/src/apply-receipt.ts:97-127 | A good payload for a receipt that may be applied is planned if and only if the registry lists no vault twice up to case, a bucket brings each of its vaults, every bucket with weight is for one of them, and no two buckets bring one. |
| PlanApply.KeptHolds | publish-contracts/src/apply-receipt.ts:97-99 | Dropping moves no weight and drops exactly the weightless entries of vaults that are not eligible. |
| OwnerSigners.FirstRepeat | publish-contracts/src/cli.ts:456-457 | A spec given twice is found exactly when there is one. |
| OwnerSigners.Shortfall | publish-contracts/src/cli.ts:447-469 | The test passes exactly when the run is not one it applies to, or there are enough specs, none twice, every readable claim an owner and no owner claimed twice. |
| OwnerSigners.ClaimRefusal | publish-contracts/src/cli.ts:458-467 | The loop over the claims refuses exactly on a claim outside the owners or an owner claimed twice. |
| OwnerSigners.PassesExactlyWhenPaired | publish-contracts/src/cli.ts:452-469 | When every claim is readable the test passes if and only if specs and sheet owners pair off one to one. |
| OwnerSigners.UnreadableClaimsHide | publish-contracts/src/cli.ts:461-462 | The condition is needed: a spec whose claim cannot be read is let through. |

## Left out

- RPC, viem, cast, forge and git calls, file reading, JSON parsing, logging and message wording: inputs, or the environment's state.
- ABI encoding, keccak256, sha256 and the CREATE2 address: uninterpreted functions; operation ids are the pair of row and round, which `KeyText` backs by the injectivity of their salt labels.
- Govern rows other than the unpauses, one-round rows and the cancel row (redeploy, retire, clear, guard, upgrade, registration): the same phases with more reads.
- Predecessors between timelock operations (`dependsOn`): the shipped table of dependencies is empty.
- The race between the pause check and the Safe send inside one execute phase: that check and send are one step. The reads of the timelock before a send are steps of their own.
- The read of the timelock before a schedule and the reservation of its number are one step.
- A cancel the Safe reverts: the process stops, as at any point.
- Liveness after a crash followed by a pause, which the code does not promise.
- A damaged run manifest and the write lock of `runner.ts`: manifests are readable and writes atomic; a pause-all with no manifest file records nothing and is not a step.
- GovernRun.GovernProcess.RunSet: the wait between the two loops is one look; the polling is `WaitReady.Clock.Wait`, on its own clock. When the environment interferes the contract says what a set that returns has done, not when it returns.
- WaitReady.Clock.Wait: the reads of one pass see one timelock, where the source reads operation by operation.
- The records of Safe owner changes in the run manifest, and the timelock role rows.
- `resolveCounts` and the drift checks: lookups over the functions modelled here.
- The field order of the JSON text of a frozen file: two counts objects are equal when they have the same entries; the accepted differences are compared as lists.
- Sorted and joined listings of libraries in `verifyReconstruction` are compared as multisets, and entries are seen by their pair of stage and library, where the source joins them with a slash.
- Evidence.CheckEvidence: the other parts of the check (stages, addresses, nonces, shapes of the other lists, kind) are one list of further problems.
- EvidenceTheorems.AccumulatedDelay: times are exact numbers; the rounding of floating point and infinite timestamps are not modelled.
- Replay.RecordThenReplay: timestamps beyond the exact range of a JavaScript number, and contract reads that return no value, are not modelled.
- The secret scan of the evidence folder, the CI proof signatures, flag parsing and the terminal screen.
- `expectedLibraryRuntime` beyond its refusal of code without the self-address push and the address it fills in.
