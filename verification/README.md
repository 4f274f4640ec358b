# Slashing, storage deals, miner rewards and credit history

A Dafny model of the bookkeeping at the centre of a storage blockchain, with proofs of what that bookkeeping promises
over whole runs. Everything is stated on unbounded integers, maps and sequences; every storage item that the pallets
update in place is a class whose methods are proved equal to a function of the old state and keep the invariant of the
class, and the laws are lemmas about those functions and about runs of any length.

| file | what it models |
|---|---|
| `Base.dfy`, `PerThings.dfy` | options, sums over sequences and maps; per-billion and per-quintillion arithmetic with its roundings |
| `Spans.dfy` | the slashing spans of a stash, kept as relative lengths: ending, listing, looking up and pruning |
| `SpanSlash.dfy` | span records and the inspection that raises, pays and prunes them; runs of reports for one stash |
| `ComputeSlash.dfy` | computing a slash from an offence report, for validator and nominators; runs of reports for all stashes |
| `StakingLedger.dfy` (module `Staking`) | the ledger slash, rebonding and withdrawing unlocked chunks |
| `ApplySlash.dfy` | applying a pending slash to ledgers and balances, paying reporters and the slash handler |
| `Allocation.dfy`, `Placement.dfy` | choosing miners, giving them fragments, and recovering the placement when a deal completes |
| `UserSpace.dfy` | the space of a user: bought, expanded, frozen, locked, used and released |
| `Deals.dfy`, `FileBank.dfy` | the deal state machine and the space counters of miners and network; the calls that run it |
| `StoredFiles.dfy` | service space against the records of the stored files, over whole runs |
| `Ownership.dfy` | users' used space against the files that list them as owners, over whole runs, and when deletions succeed |
| `Completion.dfy` | users' locked space against their deals, and the network's idle space against miners and users, over whole runs |
| `Rounds.dfy` | the rounds in which a deal looks for miners and who has reported it, over whole runs |
| `Scenarios.dfy` | runs from any empty chain in which a promise of the storage calls fails |
| `Challenge.dfy` | spaces stay whole fragments, so the reward round of any snapshot fits its reward |
| `MinerRewards.dfy`, `RewardPool.dfy` | the release schedule of rewards, one reward round, and the solvency of the reward pot |
| `CreditHistory.dfy` | scheduler credit with a pruned five-period history |

The main results are `SpanSlash.MaxNotSum`, `ComputeSlash.ChargesAreSpanMaxima`, `ComputeSlash.PayoutsWithinSlashes`,
`ComputeSlash.NominatorSlashTelescopes`, `Staking.SlashBounds`, `Staking.SweepsDustIff`, `Staking.SlashPriority`,
`ApplySlash.ApplyConserves`, `Allocation.AllocationIsExact`, `Placement.PlacementIsRecovered`,
`Deals.SpaceIsConserved`, `Deals.LockedMatchesDeals`, `Deals.UnlockNeverUnderflows`,
`StoredFiles.ServiceMatchesFiles`, `StoredFiles.TotalServiceIsStored`, `Ownership.UsedSpaceMatchesOwners`,
`Ownership.DeletionSucceedsIff`, `Completion.UserSpaceMatchesDeals`, `Completion.IdleSpaceMatchesLocks`,
`Completion.CompletionSucceedsIff`, `Rounds.FiveRounds`, `Rounds.DealsKnowTheirReporters`,
`MinerRewards.ReleaseSchedule`, `Challenge.RoundsNeverOverPromise`, `RewardPool.RoundIsCovered`,
`RewardPool.SurplusIsConserved` and `CreditHistory.PrunedScoresAreFullScores`.

Where a promise is false of the code the code is kept, an input shows the failure, and the exact condition under which
the promise holds is proved. The runs of `Scenarios` start from any empty chain.

- A ledger slash can exceed the requested amount, although `c-pallets/staking/src/lib.rs:557` says it never does:
  exactly when it stops inside a target and would leave less than the minimum balance there, which sums of the targets
  decide with and without a proportion (`Staking.SlashBounds`, `Staking.SweepsDustIff`, and the input of
  `Staking.SlashCanExceedTheAmount`).
- Giving used space back recomputes the remaining space without the locked part: the parts of an account add up
  exactly when nothing was locked at the last release (`UserSpace.PartsAddUpIff`, `UserSpace.ReleaseCanOverbook`).
- A deal can be declared again over an open one once its scheduled call has failed; the locked space of miners and user
  then exceeds the open deals by exactly what was replaced (`Deals.LockedMatchesDeals`,
  `Completion.UserSpaceMatchesDeals`, and the run of `Scenarios.RedeclaringAbandons`).
- A report does not look at the stage, so it can complete a deal again: it counts the file twice in the network's
  service space, takes locked space of the user's other deals, and makes the user of the deal the only owner, whatever
  the others have paid for (`StoredFiles.TotalServiceIsStored`, `Completion.UserSpaceMatchesDeals`,
  `Ownership.UsedSpaceMatchesOwners`, and the runs of `Scenarios.ReportingCountsAgain`, `Scenarios.ReportingStrays` and
  `Scenarios.ReportingDispossesses`).
- A user's used space is not always the size of the files they own: it differs by exactly what joining with another
  number of segments, repeated reports and buckets emptied by somebody no longer the owner have mistitled
  (`Ownership.UsedSpaceMatchesOwners`, and the runs of `Scenarios.JoiningLocksIn`, `Scenarios.ReportingDispossesses`
  and `Scenarios.EmptyingMiscredits`).
- Deleting an active file can fail for one of its owners. It succeeds exactly when the owner's account can give back
  all its entries and, for the last entry, on every miner the other stored files with the strays of the run cover the
  files still being calculated (`Ownership.DeletionSucceedsIff`). It fails for a user who joined with nothing declared
  (`Scenarios.JoiningLocksIn`), in an account overbooked by releases (`UserSpace.OverbookedCannotRelease`), after a
  bucket with a file under calculation was emptied (`Scenarios.EmptyingCanStrand`), and after a fragment of such a file
  was restored elsewhere (`Scenarios.RestoringCanUnderflow`).
- Expiry and completion of a deal can fail: exactly when repeated reports have used up the user's locked space. The
  network's idle space never stops a completion, because it is always the idle space of all miners and the locked space
  of all users (`Completion.ExpirySucceedsIff`, `Completion.CompletionSucceedsIff`, `Completion.IdleSpaceMatchesLocks`,
  and the run of `Scenarios.ReportingStarves`).
- A user who joins a stored file and leaves it again is back where they started exactly when their remaining space was
  total minus used, they declared as many segments as the file has, and no earlier entry of theirs stands before one
  of somebody else (`Deals.JoinThenLeave`, and the run of `Scenarios.JoiningLocksIn`, where leaving is refused).
- A fine above the collateral records all of itself as debt, because the collateral is zeroed first: the debt is the
  shortfall exactly when there was no collateral (`RewardPool.FineDebtIff`, and the run of
  `RewardPool.FineCanOverbill`).

## Model

| member | source | states |
|---|---|---|
| Spans.SpansAreAdjacent | c-pallets/staking/src/slashing.rs:138-151 | listing a valid span list never underflows and yields adjacent spans with consecutive falling indices, from the ongoing one back |
| Spans.SpansPartitionEras | c-pallets/staking/src/slashing.rs:86-151 | every era from the earliest start on lies in exactly one listed span, no earlier era in any, and lookup by era returns that span's index |
| Spans.EndSpanKeepsThePast | c-pallets/staking/src/slashing.rs:124-135 | ending the ongoing span keeps the list valid and its earliest index, and leaves the span of every era up to `now` unchanged |
| Spans.PruneIsExact | c-pallets/staking/src/slashing.rs:162-181 | pruning removes exactly the prior spans that end at or before the window start |
| Spans.PruneIsInvisible | c-pallets/staking/src/slashing.rs:162-181 | every era at or after the window start keeps its span index or stays uncovered, and an era before it keeps its index or loses it, so no span is renumbered |
| Spans.PruneForgetsThePast | c-pallets/staking/src/slashing.rs:162-181 | once the window starts after the ongoing span, no era before the window has a span |
| Spans.PruneKeepsValid | c-pallets/staking/src/slashing.rs:162-181 | pruning keeps the list valid, moves the earliest index only up, and leaves no prior span when the ongoing start is moved |
| Spans.AfterChanges | c-pallets/staking/src/slashing.rs:109-181 | after any endings and prunings the list is valid, so listing never underflows, and indices and starts only move up |
| Spans.SlashingSpans.EndSpan | c-pallets/staking/src/slashing.rs:124-135 | the method on the stored list ends the span as specified and reports whether it did |
| Spans.SlashingSpans.Iter | c-pallets/staking/src/slashing.rs:138-151 | the backward walk over relative lengths yields the listed spans |
| Spans.SlashingSpans.EraSpan | c-pallets/staking/src/slashing.rs:484-486 | linear search over the listed spans finds the span of an era exactly when there is one |
| Spans.SlashingSpans.FindPruned | c-pallets/staking/src/slashing.rs:162-168 | the search stops at the first prior span that ended by the window start |
| Spans.SlashingSpans.Prune | c-pallets/staking/src/slashing.rs:162-181 | truncates in place, keeps the list valid and returns exactly the range of removed indices, or none |
| SpanSlash.StepMovesUp | c-pallets/staking/src/slashing.rs:441-552 | fetched, inspected and dropped, a stash's span indices only move up, and a slash lands in the live span its era lies in |
| SpanSlash.StepEffect | c-pallets/staking/src/slashing.rs:492-552 | among the live records only the target's changes, to the larger slash, with exactly the difference added to the stash's slash |
| SpanSlash.ReportEndsOngoing | c-pallets/staking/src/slashing.rs:275-284 | a report about an era in the ongoing span, slash or kick, ends it: every era after `now` lies in the next span; a report about an earlier span leaves the ongoing one open |
| SpanSlash.SlashIsDated | c-pallets/staking/src/slashing.rs:509-513 | the last nonzero slash moves up to the era of a report exactly when the report raises a record |
| SpanSlash.SpansAreDated | c-pallets/staking/src/slashing.rs:478-552 | since the last clearing the last nonzero slash of a stash is the latest era for which a report raised a record |
| SpanSlash.DryReportWritesNothing | c-pallets/staking/src/slashing.rs:537-552 | a report that lies in no span, or neither raises, pays nor ends the ongoing span, writes nothing but a first span list |
| SpanSlash.ReportPrunes | c-pallets/staking/src/slashing.rs:537-552 | after any other report no span is left that ended by the window start, and the ongoing one starts no earlier |
| SpanSlash.LaterOffencesAdd | c-pallets/staking/src/slashing.rs:265-286 | two reports against a clean stash cost the larger when the second is about an era no later than the block of the first, and their sum when it is about a later one |
| SpanSlash.RewardIsHalf | c-pallets/staking/src/slashing.rs:502-526 | a report at or above the record promises half of what the proportion of its slash still allows, rounded down at a tie, and one below it nothing |
| SpanSlash.RecordsAreMaxima | c-pallets/staking/src/slashing.rs:478-552 | over any run from a clean stash, each live record holds the largest slash reported for its span and all payouts of it, and indices not yet reached were never hit |
| SpanSlash.MaxNotSum | c-pallets/staking/src/slashing.rs:478-552 | over any run of reports, span endings and prunings in any era order, the total added to a stash's slash is the sum over span indices of the largest slash reported there, and promised rewards never exceed it |
| SpanSlash.PaidWithinLargest | c-pallets/staking/src/slashing.rs:502-531 | summed over spans, payouts stay within the maxima |
| SpanSlash.PaidWithinProportion | c-pallets/staking/src/slashing.rs:502-589 | with one reward proportion throughout, in any run, clearings included, every stored record promises at most that proportion of its slash |
| SpanSlash.SpansWithinProportion | c-pallets/staking/src/slashing.rs:502-531 | and since the last clearing no span, pruned or live, has promised more than that proportion of the largest slash reported for it |
| SpanSlash.RewardIsCapped | c-pallets/staking/src/slashing.rs:502-526 | raising a record keeps its payout within the slash, and within the proportion of it |
| SpanSlash.RecordsStayCovered | c-pallets/staking/src/slashing.rs:478-589 | over any run, clearings included, every stored record keeps its payouts within its slash |
| SpanSlash.PaidWithinSlashed | c-pallets/staking/src/slashing.rs:478-589 | over any run of a clean stash, clearings included, all promised rewards are at most all slashes added |
| SpanSlash.EraKeepsItsSpan | c-pallets/staking/src/slashing.rs:124-181 | across a run no step of which dates before an era, the era keeps its span index for as long as it is covered |
| SpanSlash.ForgetLeavesNothing | c-pallets/staking/src/slashing.rs:563-589 | clearing leaves no span and no record exactly when enough spans were declared or there were none |
| SpanSlash.ForgetRestarts | c-pallets/staking/src/slashing.rs:563-589 | a clearing either starts the stash afresh or changes nothing, and slashes and pays nothing |
| SpanSlash.StashStore.Slash | c-pallets/staking/src/slashing.rs:265-286 | fetch, compare, end the ongoing span when it was hit and drop amount to one step of the specification |
| SpanSlash.StashStore.KickOutIfRecent | c-pallets/staking/src/slashing.rs:305-324 | a report that slashes nothing ends the ongoing span only when its era lies there |
| SpanSlash.StashStore.ClearStashMetadata | c-pallets/staking/src/slashing.rs:563-589 | removes spans and then the records index by index; succeeds exactly when the stash ends clean |
| SpanSlash.InspectingSpans.constructor | c-pallets/staking/src/slashing.rs:441-464 | fetching creates and stores a first span list when there is none |
| SpanSlash.InspectingSpans.EndSpan | c-pallets/staking/src/slashing.rs:471-473 | becomes dirty exactly when the span list changed |
| SpanSlash.InspectingSpans.CompareAndUpdateSpanSlash | c-pallets/staking/src/slashing.rs:492-534 | raises the record to the larger slash, pays half of what the proportion still allows, dates a new maximum and is dirty exactly when the record changed |
| SpanSlash.InspectingSpans.Drop | c-pallets/staking/src/slashing.rs:537-552 | a dirty inspection writes back the pruned spans and removes exactly the records of the pruned indices |
| ComputeSlash.ChargesAreSpanMaxima | c-pallets/staking/src/slashing.rs:227-301 | over any run of reports about any stashes, what all pending slashes hold against one stash is the sum over its spans of the largest charge |
| ComputeSlash.SettleProjects | c-pallets/staking/src/slashing.rs:265-292 | settling charges of many stashes settles each as if alone |
| ComputeSlash.NominatorsAreChargedEraSlash | c-pallets/staking/src/slashing.rs:379-417 | each nominator is charged its whole era slash as the report leaves it, not the growth alone |
| ComputeSlash.NominatorSlashTelescopes | c-pallets/staking/src/slashing.rs:227-397 | with fixed exposures, after any reports the stored slash of a nominator is the sum over validators of the largest proportion reported times its exposure, including reports that round to zero or are no new maximum |
| ComputeSlash.GrowAllOwes | c-pallets/staking/src/slashing.rs:379-397 | one report adds to a nominator exactly the difference between what the new and the prior proportion owe |
| ComputeSlash.PendingOwn | c-pallets/staking/src/slashing.rs:227-286 | there is a pending slash exactly for a new maximum that does not round to nothing, and it charges the validator what its own slash exceeds the record of the span that the offence era lies in |
| ComputeSlash.PendingOthers | c-pallets/staking/src/slashing.rs:379-417 | and each nominator what its era slash, as the report leaves it, exceeds the record of its span of that era |
| ComputeSlash.ReportEndsSpan | c-pallets/staking/src/slashing.rs:265-324 | a report about an era in the ongoing span of its validator ends that span, even when it rounds to nothing |
| ComputeSlash.RecordIsLargest | c-pallets/staking/src/slashing.rs:242-263 | a validator's record ends at the largest of all reports of the era, unless all of them round to nothing |
| ComputeSlash.RoundedOffOwesNothing | c-pallets/staking/src/slashing.rs:233-240 | a proportion that rounds to nothing on the whole exposure owes nothing on any part of it |
| ComputeSlash.PayoutIsPaid | c-pallets/staking/src/slashing.rs:265-300 | the payout of a report is the sum of what the spans of its stashes promised |
| ComputeSlash.PayoutsWithinSlashes | c-pallets/staking/src/slashing.rs:227-301 | over any run of stashes that start clean, clearings included, all payouts promised are at most all slashes raised |
| ComputeSlash.StoredPayIsCovered | c-pallets/staking/src/slashing.rs:227-324 | over any run of reports about any stashes, every stored span record keeps its payouts within its slash |
| ComputeSlash.StoredPayIsCapped | c-pallets/staking/src/slashing.rs:227-324 | with one reward proportion, after any run of reports about any stashes, every stored span record promises at most that proportion of its slash |
| ComputeSlash.Slashing.ComputeSlash | c-pallets/staking/src/slashing.rs:227-301 | the call leaves the specified records, era slashes and spans, and returns a pending slash exactly for a new maximum that does not round to zero |
| ComputeSlash.Slashing.SlashNominators | c-pallets/staking/src/slashing.rs:371-420 | the loop settles every nominator in order on top of the validator |
| ComputeSlash.Slashing.SlashNominator | c-pallets/staking/src/slashing.rs:379-417 | grows the nominator's era slash and charges it |
| ComputeSlash.Slashing.KickOutIfRecent | c-pallets/staking/src/slashing.rs:305-324 | only the reported stash's spans change |
| ComputeSlash.Slashing.ClearStashMetadata | c-pallets/staking/src/slashing.rs:563-589 | clears one stash and no other; succeeds exactly when it ends clean |
| ComputeSlash.ClearedEraTelescopesAfresh | c-pallets/staking/src/slashing.rs:555-560 | once an era is cleared, whatever came before, the stored slash of a nominator in it is again the sum over validators of the largest proportion reported since |
| ComputeSlash.ClearedEraLeavesOthers | c-pallets/staking/src/slashing.rs:555-560 | the pending slash of a report about any other era is the same before and after the clearing |
| Staking.SlashBounds | c-pallets/staking/src/lib.rs:565-683 | a slash of nothing changes nothing; any other slash of a balanced ledger keeps it balanced, takes at least the amount or everything, and exceeds the amount, by less than the minimum balance, exactly when sums over the targets say it stops inside one of them leaving dust |
| Staking.CutOvershoot | c-pallets/staking/src/lib.rs:633-676 | the same for any list of targets, ratio and minimum balance |
| Staking.SweepsDustIff | c-pallets/staking/src/lib.rs:633-658 | in both modes dust is swept exactly when the amount ends inside some target, past the full shares of the earlier ones, and leaves less than the minimum balance there |
| Staking.PlainCutSweepsDust | c-pallets/staking/src/lib.rs:648-654 | without a proportion this is: the amount stops less than the minimum balance short of the end of some target |
| Staking.SlashCanExceedTheAmount | c-pallets/staking/src/lib.rs:557 | a slash of 6 from a ledger of 10 with minimum balance 5 takes all 10 |
| Staking.ProportionalCutSuffices | c-pallets/staking/src/lib.rs:605-658 | rounding the ratio and every share up, a slash that fits the affected targets is spent within them |
| Staking.GreedyCutSuffices | c-pallets/staking/src/lib.rs:616-676 | a slash that takes all it can stops with something left only when every target is empty |
| Staking.SlashSuffices | c-pallets/staking/src/lib.rs:582-676 | in both modes, nothing is left to take unless the ledger is empty |
| Staking.SlashPriority | c-pallets/staking/src/lib.rs:582-676 | a slash that fits the affected balance touches no earlier chunk, chunks keep their eras, and every touched chunk ends empty or at least at the minimum balance |
| Staking.SlashKeepsChunks | c-pallets/staking/src/lib.rs:582-679 | the chunks after a slash are chunks from before it, in order and with their eras, each with all it had or at least the minimum balance, and earlier chunks as they were while the amount fits the affected balance |
| Staking.SlashDropsTheEmptied | c-pallets/staking/src/lib.rs:679 | no chunk is missing that the slash did not empty |
| Staking.NonZeroIsExact | c-pallets/staking/src/lib.rs:679 | dropping the empty chunks keeps every other chunk as often as it was there |
| Staking.NobodyPaysOutOfTurn | c-pallets/staking/src/lib.rs:582-676 | when a chunk loses anything, every chunk before it, slashable ones oldest first and then earlier ones newest first, has lost its full share |
| Staking.ActivePaysFirst | c-pallets/staking/src/lib.rs:660-661 | and so has the active balance |
| Staking.SharesAreCapped | c-pallets/staking/src/lib.rs:633-645 | a proportional slash takes from a chunk at most its up-rounded share, unless it empties it |
| Staking.ActiveIsSlashedFirst | c-pallets/staking/src/lib.rs:660-661 | without slashable chunks the active balance alone pays unless the amount exceeds it; with them it loses at most its up-rounded share or everything |
| Staking.AfterIsExact | c-pallets/staking/src/lib.rs:491-503 | exactly the chunks due after the current era survive consolidation |
| Staking.StakingLedger.Slash | c-pallets/staking/src/lib.rs:565-683 | the in-place slash is the specified one and returns exactly the drop in total |
| Staking.StakingLedger.SlashTargets | c-pallets/staking/src/lib.rs:577-676 | active balance, then chunks in priority order, leaves the specified ledger up to its empty chunks |
| Staking.StakingLedger.ChooseMode | c-pallets/staking/src/lib.rs:586-620 | the ratio is the least that covers the amount over the active balance and the slashable chunks |
| Staking.StakingLedger.SlashChunks | c-pallets/staking/src/lib.rs:663-676 | the walk over the priority list leaves every chunk at its specified value and the ledger balanced |
| Staking.StakingLedger.SlashOutOf | c-pallets/staking/src/lib.rs:633-658 | one target keeps its capped, dust-free rest, and the total and the remaining slash fall by what was taken |
| Staking.StakingLedger.ConsolidateUnlocked | c-pallets/staking/src/lib.rs:487-513 | drops exactly the due chunks, takes their sum off the total and keeps the ledger balanced |
| Staking.StakingLedger.FilterDue | c-pallets/staking/src/lib.rs:491-503 | the walk over the chunks keeps those due later and takes exactly the others off the total |
| Staking.StakingLedger.Rebond | c-pallets/staking/src/lib.rs:518-540 | moves the smaller of the value and all unlocking into active, from the newest chunks, leaving a prefix with at most its last chunk reduced and never empty by it |
| Staking.StakingLedger.RebondLast | c-pallets/staking/src/lib.rs:521-537 | the newest chunk gives the smaller of its value and the room to active, and what unlocking loses active gains |
| ApplySlash.ApplyConserves | c-pallets/staking/src/slashing.rs:594-691 | reporters and handler receive exactly what was taken from all stashes, reporters at most the payout |
| ApplySlash.SlashMoves | c-pallets/staking/src/slashing.rs:594-630 | what leaves a balance is what the pot gains, and what the balance lacks comes off the reward |
| ApplySlash.LedgerPays | c-pallets/staking/src/slashing.rs:594-630 | the ledger of the stash's controller falls by what was slashed, at least the value or all of it, and no other ledger; the balance of the stash by as much of that as it holds, and no other balance |
| ApplySlash.LedgersPay | c-pallets/staking/src/slashing.rs:594-659 | over all slashes the ledgers lose what was taken from balances and what these lacked, and exactly the latter comes off the payout |
| ApplySlash.CreditPays | c-pallets/staking/src/slashing.rs:678-686 | paying a share to every reporter, repeated or not, adds that many shares to all balances |
| ApplySlash.CreditIsPerEntry | c-pallets/staking/src/slashing.rs:678-686 | every account's balance grows by what it receives as a named reporter, and nobody else's |
| ApplySlash.ReceivesPerEntry | c-pallets/staking/src/slashing.rs:678-686 | which is one share for each time it is named |
| ApplySlash.ShareFits | c-pallets/staking/src/slashing.rs:675-678 | equal shares stay within payout and imbalance and leave less than one unit each |
| ApplySlash.Balances.DoSlash | c-pallets/staking/src/slashing.rs:594-630 | slashes ledger and balance of one stash and keeps all ledgers balanced |
| ApplySlash.Balances.ApplySlash | c-pallets/staking/src/slashing.rs:633-659 | validator and nominators in order, then the payout |
| ApplySlash.Balances.PayReporters | c-pallets/staking/src/slashing.rs:662-691 | the loop pays every reporter its share and hands the rest to the handler |
| Allocation.SelectMiners | c-pallets/file-bank/src/functions.rs:201-266 | whatever the random numbers, at most three distinct positive miners are chosen, each with more idle space than the file has segments worth of fragments, and together more than 24 MiB; with at most fifteen miners none that fits is overlooked, so a choice is refused as empty only when nobody fits; too little space together is possible only for files under three segments, and a missing miner only when the registry names one |
| Allocation.CapacityIsLargest | c-pallets/file-bank/src/functions.rs:282 | a miner is given one more fragment exactly while its capacity, the largest count strictly below its idle space, is not reached |
| Allocation.SlotFoundIffRoom | c-pallets/file-bank/src/functions.rs:275-287 | a slot is found within one round of probes exactly when some room is left |
| Allocation.AllocationIsExact | c-pallets/file-bank/src/functions.rs:268-290 | allocation succeeds exactly when the capacities cover the fragments; then every fragment is placed once and no miner beyond its capacity |
| Allocation.ThreeMinersTakeColumns | c-pallets/file-bank/src/functions.rs:268-290 | with three miners no probe is wasted: miner j receives fragment j of every segment |
| Allocation.ProbeForRoom | c-pallets/file-bank/src/functions.rs:275-287 | probing by a running index modulo the miners finds the next slot with room, or runs until the index overflows |
| Allocation.AssignSegment | c-pallets/file-bank/src/functions.rs:270-289 | one segment's fragments go round-robin from the first miner |
| Allocation.AssignFragments | c-pallets/file-bank/src/functions.rs:268-290 | the nested loops place as specified, and fail only by index overflow when room runs out |
| Placement.PlacementIsRecovered | c-pallets/file-bank/src/functions.rs:16-75 | the recorded file lists every fragment once and in order, and on each miner exactly what it was assigned; with three miners fragment j of every segment lies on miner j, even when hashes repeat |
| Placement.FileIsComplete | c-pallets/file-bank/src/functions.rs:26-75 | for any number of miners whose lists hold exactly the deal, the record is complete and every list is used up |
| Placement.ColumnsAreRecovered | c-pallets/file-bank/src/functions.rs:43-72 | with three miners marking each at most once per segment recovers the columns |
| Placement.RecordMovesBags | c-pallets/file-bank/src/functions.rs:52-71 | what a miner's list loses is what is recorded on that miner |
| Placement.LocksFit | c-pallets/file-bank/src/functions.rs:281-294 | the space each chosen miner must lock is strictly below its idle space |
| Placement.BinarySearch | c-pallets/file-bank/src/functions.rs:59 | finds a hash in a sorted list exactly when it is there |
| Placement.FindTask | c-pallets/file-bank/src/functions.rs:53-70 | the first list that holds the fragment and whose miner is not marked |
| Placement.RecordSegment | c-pallets/file-bank/src/functions.rs:43-72 | search, remove and mark record a segment as if the lists were bags |
| Placement.SharedIsFirst | c-pallets/file-bank/src/functions.rs:34-42 | a segment is copied from the shared ones exactly when its hash is among them, and then from the first with that hash |
| Placement.GenerateFile | c-pallets/file-bank/src/functions.rs:16-75 | the loops over segments, with shared segments copied, build the specified record |
| UserSpace.ExcessIsLockedAtLastRelease | c-pallets/storage-handler/src/lib.rs:428-456 | over any run of purchases of more, freezings, locks, uses and releases the parts of an account exceed its total by exactly what was locked at the last release |
| UserSpace.PartsAddUpIff | c-pallets/storage-handler/src/lib.rs:428-456 | used, locked and remaining add up to the total exactly when nothing was locked at the last release |
| UserSpace.ReleaseCanOverbook | c-pallets/storage-handler/src/lib.rs:448-450 | with 20 units bought, use, lock and release leave 30 in play |
| UserSpace.OverbookedCannotRelease | c-pallets/storage-handler/src/lib.rs:428-456 | for any purchase and part of it, five operations leave more in use than was bought, and then less than that part cannot be given back |
| UserSpace.FrozenOnlyGivesBack | c-pallets/storage-handler/src/lib.rs:211-552 | a frozen account can neither use, lock nor buy more space, but release, unlock and turn locked space into used as any other |
| UserSpace.LockRoundTrips | c-pallets/storage-handler/src/lib.rs:521-552 | unlocking undoes a lock, and turning a lock into use is using the space at once |
| UserSpace.StorageHandler.UpdateUserSpace | c-pallets/storage-handler/src/lib.rs:428-456 | succeeds exactly for use within the remaining space of an account that is not frozen, or for release within what is used; use keeps the excess of the parts over the total, release sets it to what is locked; nothing else changes |
| UserSpace.StorageHandler.LockUserSpace | c-pallets/storage-handler/src/lib.rs:521-534 | succeeds exactly within the remaining space of an account that is not frozen, keeps the excess of the parts, and unlocking would undo it |
| UserSpace.StorageHandler.UnlockUserSpace | c-pallets/storage-handler/src/lib.rs:536-543 | succeeds exactly within the locked space, frozen or not, keeps the excess of the parts, and locking would undo it |
| UserSpace.StorageHandler.UnlockAndUsedUserSpace | c-pallets/storage-handler/src/lib.rs:545-552 | succeeds exactly within the locked space, keeps the excess of the parts, and amounts to unlocking and then using |
| Deals.SpaceIsConserved | c-pallets/file-bank/src/lib.rs:450-868 | in every run of the modelled calls, total idle plus total service space is the sum over miners of idle, locked and service space |
| Deals.LockedMatchesDeals | c-pallets/sminer/src/lib.rs:979-1005 | in every run a miner's locked space is the size of its fragments over all open deals plus those of replaced deals |
| Scenarios.RedeclaringAbandons | c-pallets/file-bank/src/functions.rs:134-163 | a run in which a deal whose scheduled call found nobody is declared again: the miner has the space of both locked and a deal for one |
| Deals.RemoveOwnerTakesOne | c-pallets/file-bank/src/functions.rs:352-369 | an owner leaving a file drops exactly one entry of them, releases the size of the file to them, and touches no other account, file or counter |
| Deals.JoinThenLeave | c-pallets/file-bank/src/lib.rs:450-496 | for any user, owner already or not, joining a stored file and leaving it restores the state exactly when the remaining space was total minus used, as many segments were declared as the file has, and no entry of the user stands before one of somebody else |
| Deals.FillerRoundTrips | c-pallets/file-bank/src/lib.rs:807-868 | deleting an idle file just uploaded restores the state |
| Deals.ClaimHolds | c-pallets/file-bank/src/lib.rs:939-1125 | over any run in which nobody claims a claimed order after its deadline, the order stays as claimed unless the claimant completed it in time; no other call takes, changes or completes it |
| Deals.AccountEvents | c-pallets/storage-handler/src/lib.rs:178-518 | in the runs, buying opens a new account with all of it remaining, expanding adds to total and remaining of one that is not frozen, and freezing changes nothing else |
| Deals.UnlockNeverUnderflows | c-pallets/file-bank/src/lib.rs:510-535 | in every run, unlocking or converting the space of an open deal succeeds |
| Deals.LockNeverFails | c-pallets/file-bank/src/functions.rs:291-294 | whatever miners are chosen, a successful assignment fits their idle space |
| Deals.NextKeeps | c-pallets/file-bank/src/lib.rs:450-1125 | every call keeps the network's books and the known miners, and shifts locked space against open deals only by a replaced deal |
| Deals.RunKeeps | c-pallets/file-bank/src/lib.rs:450-1125 | the same over any run |
| Deals.MoveAllEffect | c-pallets/sminer/src/lib.rs:979-1005 | locking, unlocking or converting a whole assignment conserves what miners hold and shifts each miner's locked space by its load |
| Deals.MoveSucceedsIff | c-pallets/sminer/src/lib.rs:979-1005 | locking succeeds exactly within the idle space, unlocking and converting within the locked space; of a missing miner only unlocking succeeds, and changes nothing |
| Deals.UnlockSucceeds | c-pallets/sminer/src/lib.rs:988-1005 | unlocking fails only for lack of locked space |
| Deals.TakeServiceEffect | c-pallets/file-bank/src/functions.rs:383-404 | deleting a record takes exactly its size off the miners |
| FileBank.Pallet.RandomAssignMiner | c-pallets/file-bank/src/functions.rs:201-297 | yields an assignment to validly chosen miners with its space locked, or changes nothing; a choice that was made is refused only when it cannot be placed |
| FileBank.Pallet.MoveSpaces | c-pallets/sminer/src/lib.rs:979-1005 | the loop over miners moves every load, or fails as soon as one does not fit |
| FileBank.Pallet.RegisterMiner | c-pallets/sminer/src/lib.rs:261-307 | a new account joins the registry once, with no space, and the registry stays distinct and equal to the miners |
| FileBank.Pallet.RunDue | c-pallets/file-bank/src/functions.rs:165-199 | the scheduled call of a deal runs once, as reassignment or as the end of calculation, and is gone whether or not it succeeds; keeps the invariant of the pallet |
| FileBank.Pallet.UploadDeclaration | c-pallets/file-bank/src/lib.rs:450-496 | joins a stored file or opens a deal with user and miner space locked and its deadline scheduled, all or nothing; with space to spare it is refused only for a frozen account, a call already scheduled, or miners not found or not able to take the file; keeps the invariant of the pallet |
| FileBank.Pallet.DealReassignMiner | c-pallets/file-bank/src/lib.rs:501-538 | frees the miners and finds new ones, or after five rounds ends the deal and frees the user, all or nothing; freeing the miners never fails, so it fails exactly when there is no deal, no miners are found or able, or the user has too little locked |
| FileBank.Pallet.TransferReport | c-pallets/file-bank/src/lib.rs:621-709 | at most four reports, each counted once per miner; the last of a deal completes it; all or nothing; keeps the invariant of the pallet |
| FileBank.Pallet.CompleteReported | c-pallets/file-bank/src/lib.rs:645-690 | records the recovered file, moves user and network counters and replaces the scheduled call |
| FileBank.Pallet.CalculateEnd | c-pallets/file-bank/src/lib.rs:714-738 | locked space becomes service space, the file active and the deal is gone; converting the space never fails, so it succeeds exactly when deal and file are there |
| FileBank.Pallet.DeleteFiles | c-pallets/file-bank/src/lib.rs:777-793 | deletes up to nine files, or empties a bucket, all or nothing; keeps the invariant of the pallet |
| FileBank.Pallet.RemoveFileLastOwner | c-pallets/file-bank/src/functions.rs:372-417 | takes the service space of every fragment off its miner and the sum off the network, then the file |
| FileBank.Pallet.UploadFillers | c-pallets/file-bank/src/lib.rs:807-842 | adds up to ten new idle files to miner and network, all or nothing; keeps the invariant of the pallet |
| FileBank.RewriteSegments | c-pallets/file-bank/src/lib.rs:1097-1114 | the nested search rewrites the first entry of a fragment on a miner and nothing else |
| FileBank.Pallet.GenerateRestoralOrder | c-pallets/file-bank/src/lib.rs:939-981 | only the miner of a fragment opens an order for it, which makes the fragment unavailable; keeps the invariant of the pallet |
| FileBank.Pallet.RestoralOrderComplete | c-pallets/file-bank/src/lib.rs:1076-1125 | before the deadline the fragment and its service space pass to the restoring miner, all or nothing; keeps the invariant of the pallet |
| StoredFiles.ServiceMatchesFiles | c-pallets/file-bank/src/lib.rs:450-1125 | in every run a miner's service space, with what deals being finished will add, is the size of the fragments all file records place on it, plus what repeated reports and emptied buckets moved |
| StoredFiles.TotalServiceIsStored | c-pallets/file-bank/src/lib.rs:673-676 | in every run the network's service space is the size of all stored files plus that of every record a repeated report wrote again |
| StoredFiles.DeletionFitsTotal | c-pallets/file-bank/src/functions.rs:410 | so deleting any stored file never takes more than the network counts |
| StoredFiles.TakeServiceIff | c-pallets/file-bank/src/functions.rs:383-404 | taking a record off its miners, fragment by fragment, succeeds exactly when every miner has the service space of all its fragments |
| StoredFiles.ServiceIsThereIff | c-pallets/file-bank/src/functions.rs:383-404 | in every run, the service space a deletion takes is there exactly when on every miner the files still being calculated fit into the other stored files and the strays of the run |
| Ownership.UsedSpaceMatchesOwners | c-pallets/storage-handler/src/lib.rs:428-456 | in every run a user's used space is the size of the stored files, once for each entry of the user among their owners, plus what joins of another size, repeated reports and buckets emptied by others mistitled |
| Ownership.ChargeIsPerEntry | c-pallets/file-bank/src/functions.rs:352-369 | what a file charges an account is its size times the account's entries among the owners |
| Ownership.NextTitles | c-pallets/file-bank/src/lib.rs:450-1125 | every call keeps every owner and every user of a deal an account and every record three fragments a segment, and shifts a user's used space against the files they own only by those three calls |
| Ownership.DeletionSucceedsIff | c-pallets/file-bank/src/functions.rs:303-417 | in every run, for any caller, the call that deletes a file succeeds exactly when the file is stored and active and, for an owner, the account can give back all entries of theirs and, for the last entry, the miners have the service space |
| Ownership.EmptyingSucceedsIff | c-pallets/file-bank/src/lib.rs:895-933 | in every run, emptying a bucket of a file, active or not, succeeds exactly when the account can give back one entry and, for a file with at most one owner entry, whoever it names, the miners have the service space |
| Ownership.RemoveOwnersIff | c-pallets/file-bank/src/functions.rs:307-317 | giving back the entries of an owner one by one succeeds exactly when all of them together fit the used space and the account is not overbooked by more than one |
| Ownership.OwnersHaveUsedEnough | c-pallets/file-bank/src/functions.rs:352-369 | an owner never charged too little has used at least what all their entries of a file give back |
| Ownership.DeletionNeverFails | c-pallets/file-bank/src/functions.rs:303-417 | so for such an owner, not overbooked, with no losing strays and no file under calculation touched by restoral, the call that deletes an active file succeeds |
| StoredFiles.OpenDealsRecover | c-pallets/file-bank/src/lib.rs:645-655 | every open deal of every run will record all its fragments, and on each account as many as it was assigned |
| StoredFiles.AssignedRecovers | c-pallets/file-bank/src/functions.rs:25-75 | what the allocator assigns, the record gives back, miner by miner and for outsiders nothing |
| StoredFiles.NextAccounts | c-pallets/file-bank/src/lib.rs:450-1125 | every call keeps a file active exactly when its deal is over, and shifts service space against records only by the two straying calls |
| Scenarios.EmptyingCanStrand | c-pallets/file-bank/src/lib.rs:895-933 | a run that empties a bucket with a file under calculation leaves the service space of another, active file at nothing, and its owner cannot delete it |
| Scenarios.RestoringCanUnderflow | c-pallets/file-bank/src/lib.rs:1076-1125 | a run that restores a fragment of a file under calculation on another miner leaves an active file that cannot be deleted |
| Scenarios.ReportingCountsAgain | c-pallets/file-bank/src/lib.rs:621-709 | a run after which a miner reports a completed deal again: the call succeeds, the files stay as they are and the network counts the file twice |
| Scenarios.ReportingStarves | c-pallets/file-bank/src/lib.rs:645-690 | a run after which another open deal of the user has no locked space left: its only report fails, and so does ending it after the last round |
| Scenarios.ReportingStrays | c-pallets/file-bank/src/lib.rs:645-690 | a run in which such a report moves a restored fragment back on record, one off the restoring miner and one on the first |
| Scenarios.ReportingDispossesses | c-pallets/file-bank/src/lib.rs:645-690 | a run in which such a report removes a co-owner from the file while what they used for it stays charged |
| Scenarios.EmptyingMiscredits | c-pallets/file-bank/src/lib.rs:895-933 | a run in which a co-owner so dropped empties their bucket: the file goes and they are credited, while its owner stays charged |
| Scenarios.JoiningLocksIn | c-pallets/file-bank/src/lib.rs:461-496 | a run in which a user joins a stored file with nothing declared: leaving is refused, and once the owner has left, the file cannot be deleted although its miner has the service space |
| Completion.UserSpaceMatchesDeals | c-pallets/storage-handler/src/lib.rs:521-552 | in every run a user's locked space is the size of their deals not yet reported, plus that of replaced deals, minus what repeated reports took |
| Completion.IdleSpaceMatchesLocks | c-pallets/file-bank/src/lib.rs:673-676 | in every run, deals replaced, completed twice or emptied included, the network's idle space is the idle space of all miners plus the locked space of all users |
| Completion.ExpirySucceedsIff | c-pallets/file-bank/src/lib.rs:525-533 | in every run, ending a deal after the last round succeeds exactly when its size fits what the user has in deals and replaced deals after the overdrawn part |
| Completion.CompletionSucceedsIff | c-pallets/file-bank/src/lib.rs:645-690 | in every run, the last report of a deal completes it exactly when its size fits what the user has in deals and replaced deals after the overdrawn part; the network always has the idle space |
| Completion.ExpirySucceeds | c-pallets/file-bank/src/lib.rs:525-533 | so without repeated reports against the user, ending an unreported deal never fails |
| Rounds.FiveRounds | c-pallets/file-bank/src/lib.rs:501-538 | in every run the first-stage call of a deal has fallen due at most five times since the deal was opened, and is only ever scheduled for the round after those, no later than the fifth |
| Rounds.FireAdvances | c-pallets/file-bank/src/lib.rs:501-538 | a call due before the fifth round finds new miners and waits for the next round, the space of the user untouched, or is not scheduled again; only the fifth ends the deal |
| Rounds.DealsKnowTheirReporters | c-pallets/file-bank/src/lib.rs:621-690 | in every run a deal lists exactly the miners that reported it since they were assigned, and in its first stage fewer have reported than are assigned, so it is complete as soon as all have |
| Rounds.ReportIsRecorded | c-pallets/file-bank/src/lib.rs:630-700 | each report of an assigned miner is recorded once; the last one completes the deal, any other changes nothing else |
| Rounds.FifthRoundEnds | c-pallets/file-bank/src/lib.rs:521-533 | in every run the call due in the fifth round ends the deal and unlocks its space for the user exactly when the user still has it locked, and never schedules another |
| Completion.FirstCompletionSucceeds | c-pallets/file-bank/src/lib.rs:645-690 | and without repeated reports against the user, whatever befell others, the first completion of a deal never fails |
| Completion.NextBooks | c-pallets/file-bank/src/lib.rs:450-1125 | every call shifts a user's locked space against their deals only by a replaced deal or a repeated report, and keeps the network's idle space what miners have idle and users have locked |
| Completion.SaneNext | c-pallets/file-bank/src/lib.rs:450-1125 | every call keeps what the pallet relies on: known miners, the network's books in total and in idle space, locked space that covers the open deals, and files active exactly when their deal is over |
| MinerRewards.ReleaseSchedule | c-pallets/sminer/src/lib.rs:676-711 | after any rounds and receipts order i of L has paid L - i shares, so an evicted order has paid all 180; paid and payable together are, round by round, a fifth plus one share per round since, up to 180 |
| MinerRewards.AwardMatches | c-pallets/sminer/src/lib.rs:688-714 | one round releases exactly the shares of the orders younger than 180 rounds |
| MinerRewards.OrderIsCovered | c-pallets/sminer/src/lib.rs:676-680 | a fifth and 180 shares never exceed the order |
| MinerRewards.OrderIsSplit | c-pallets/sminer/src/lib.rs:676-680 | a fifth of an order is paid at once and each of its 180 shares is a two hundred and twenty-fifth, rounded down |
| MinerRewards.PowerIsWeighted | c-pallets/sminer/src/lib.rs:654-661 | idle space counts for three tenths of its size and service space for seven, rounded down |
| MinerRewards.RewardIsTheShare | c-pallets/sminer/src/lib.rs:664-676 | a miner receives its share of the total power of the snapshot, less than one unit and a billionth of the reward below it |
| MinerRewards.PromiseIsCovered | c-pallets/sminer/src/lib.rs:818-821 | issued plus available never exceeds the total, so the subtraction at exit never underflows |
| MinerRewards.RoundFitsIff | c-pallets/sminer/src/lib.rs:654-676 | for any totals and any list of miners, the rewards of all of them stay within the reward, through all roundings, exactly when there is power, at most one miner, or nothing to give |
| MinerRewards.PoolCoversRound | c-pallets/sminer/src/lib.rs:716-719 | whichever miners of a round that fits were paid, the next unpaid one's reward is still there |
| MinerRewards.TakeSnapshot | c-pallets/audit/src/lib.rs:858-903 | the totals of a snapshot are the sums over exactly the miners it lists, and if spaces are whole fragments any reward covers its whole round |
| MinerRewards.SnapshotFits | c-pallets/audit/src/lib.rs:878-890 | a snapshot of miners whose spaces are whole fragments has power unless it is empty, so its round fits any reward |
| Challenge.RunKeepsWhole | c-pallets/sminer/src/lib.rs:560-652 | in every run the idle, locked and service space of every miner stays a whole number of fragments |
| Challenge.RoundsNeverOverPromise | c-pallets/audit/src/lib.rs:858-903 | whatever run led to a challenge, whichever registered miners are drawn and whoever is locked, the rewards of its round are at most the reward |
| RewardPool.SurplusIsConserved | c-pallets/sminer/src/lib.rs:409-887 | over any run of deposits, rewards, receipts, fines, exits and registrations, the pot minus the unallocated reward and all open promises changes only by promises a registration overwrote |
| RewardPool.RoundIsCovered | c-pallets/sminer/src/lib.rs:664-722 | with the reward of a snapshot unallocated at its start, over any run of the pool in which each listed miner is calculated at most once, no reward is ever refused for lack of unallocated reward |
| RewardPool.SolventPays | c-pallets/sminer/src/lib.rs:420-438 | from a pot without promises, any miner's available reward is in the pot beside the unallocated part |
| RewardPool.AvailableIsInPot | c-pallets/sminer/src/lib.rs:420-438 | with every reward record earned and no negative surplus, what a miner can receive is within its open promise and that within the pot beside the unallocated part |
| RewardPool.FineDebtIff | c-pallets/sminer/src/lib.rs:743-744 | the recorded debt is the shortfall exactly when there was no collateral |
| RewardPool.FineCanOverbill | c-pallets/sminer/src/lib.rs:724-758 | a miner registers with some collateral and is fined at least as much: the collateral is taken and the whole fine recorded as debt |
| RewardPool.FineConserves | c-pallets/sminer/src/lib.rs:724-745 | pot and collaterals together are unchanged by a fine, which moves the smaller of itself and the collateral, and touches no other miner |
| RewardPool.FineFreezesIff | c-pallets/sminer/src/lib.rs:747-752 | a fined miner is frozen exactly when its collateral ends below the limit for its power |
| RewardPool.LimitSteps | c-pallets/sminer/src/lib.rs:798-804 | the limit is two thousand units, and as much again for every full tebibyte of power |
| RewardPool.NextKeeps | c-pallets/sminer/src/lib.rs:409-887 | each call keeps every reward record earned and the surplus |
| RewardPool.ReleaseShares | c-pallets/sminer/src/lib.rs:691-700 | the walk over the order list releases one share of each order that has some left |
| RewardPool.AddOrder | c-pallets/sminer/src/lib.rs:676-714 | the walk, the new order and the eviction of the oldest leave the record of the specified schedule |
| RewardPool.Sminer.CalculateMinerReward | c-pallets/sminer/src/lib.rs:664-722 | adds the round's order to the schedule and takes its reward off the unallocated part, exactly when it is there; the pool stays solvent with the same surplus |
| RewardPool.Sminer.ReceiveReward | c-pallets/sminer/src/lib.rs:409-442 | a solvent pool pays every positive miner what is available, and only that leaves the pot: it is refused only for the state, a failed transfer, a missing record or nothing to pay; the surplus stays |
| RewardPool.Sminer.DepositPunish | c-pallets/sminer/src/lib.rs:724-758 | the fine moves from collateral to pot and unallocated reward, and a miner below its limit is frozen; the pool stays solvent with the same surplus |
| RewardPool.Sminer.TakeFine | c-pallets/sminer/src/lib.rs:728-757 | the fine leaves the collateral for pot and unallocated reward, with its debt and freezing, as one step of the specification |
| RewardPool.Sminer.ReturnPromise | c-pallets/sminer/src/lib.rs:818-830 | what returns to the unallocated reward is exactly total minus issued, and a solvent pool stays solvent with the same surplus |
| RewardPool.Sminer.ForceMinerExit | c-pallets/sminer/src/lib.rs:818-840 | the open promise returns to the unallocated reward even when the miner turns out to be gone, with the same surplus, and never underflows |
| RewardPool.Sminer.ExecuteMinerExit | c-pallets/sminer/src/lib.rs:843-864 | fails only for a missing miner; the open promise returns, with the same surplus, and no reward record is left |
| RewardPool.Sminer.RegisterMiner | c-pallets/sminer/src/lib.rs:261-307 | a new miner starts with a fresh reward record, and the surplus grows by exactly the promise a record left there still held |
| CreditHistory.PrunedScoresAreFullScores | c-pallets/scheduler-credit/src/lib.rs:144-226 | at every block of every run the schedulers listed and their scores are those of the history that is never pruned, and no score exceeds 1000 |
| CreditHistory.CreditIsBounded | c-pallets/scheduler-credit/src/lib.rs:61-67 | a period's credit value never exceeds the full score |
| CreditHistory.CreditIsTheShare | c-pallets/scheduler-credit/src/lib.rs:61-67 | without punishments the value is the share of the total block size in thousandths, within one |
| CreditHistory.FullShare | c-pallets/scheduler-credit/src/lib.rs:61-75 | whoever did all the work has 1000, less a hundred times the square of the punishments |
| CreditHistory.PunishmentLowers | c-pallets/scheduler-credit/src/lib.rs:69-75 | punishments take a hundred times the square of their number off the value, as far as there is any |
| CreditHistory.PeriodShares | c-pallets/scheduler-credit/src/lib.rs:144-163 | a scheduler's value in a period is for its share of the sizes of all schedulers of the period, the full one if it was alone |
| CreditHistory.ScoreIsWeighted | c-pallets/scheduler-credit/src/lib.rs:36-42 | the score weighs the last five periods with 50, 20, 15, 10 and 5 per cent, each rounded to the nearest unit |
| CreditHistory.StrangersScoreNothing | c-pallets/scheduler-credit/src/lib.rs:203-210 | whoever none of the last five periods records has no score |
| CreditHistory.PruneAgrees | c-pallets/scheduler-credit/src/lib.rs:173-182 | whatever is written, dropping the period five back leaves the last five periods in agreement |
| CreditHistory.WeightsBound | c-pallets/scheduler-credit/src/lib.rs:36-42 | the five weights spread at most the full score, from any period back on |
| CreditHistory.CountersAreSums | c-pallets/scheduler-credit/src/lib.rs:50-59 | over any reports a counter stays in range and at most the sum of what was reported, and equals it exactly when that sum is in range |
| CreditHistory.PeriodCounters | c-pallets/scheduler-credit/src/lib.rs:50-59 | a period that starts with no counters ends with exactly what was recorded in it, as long as that fits |
| CreditHistory.SchedulerCredit.Record | c-pallets/scheduler-credit/src/lib.rs:50-59 | one report is counted exactly when its counter stays in range, adds what it says to that counter alone, and keeps every counter in range |
| CreditHistory.SchedulerCredit.InsertValues | c-pallets/scheduler-credit/src/lib.rs:152-163 | in whatever order the counters are visited, each scheduler gets its credit value |
| CreditHistory.SchedulerCredit.FigureCreditValues | c-pallets/scheduler-credit/src/lib.rs:144-185 | the counters become the period's values, are cleared, and the period out of the window is dropped |
| CreditHistory.SchedulerCredit.OnInitialize | c-pallets/scheduler-credit/src/lib.rs:115-123 | a period is closed exactly at multiples of its duration |
| CreditHistory.SchedulerCredit.CreditScore | c-pallets/scheduler-credit/src/lib.rs:203-210 | the loop adds the weighted values of the periods that exist |
| CreditHistory.SchedulerCredit.FigureCreditScores | c-pallets/scheduler-credit/src/lib.rs:187-226 | every scheduler of the last period with a stash is scored, and nobody else |

## Left out

- Overflow of additions in 128-bit balances and space counters, of 32-bit indices, of 64-bit credit totals and of the squared punishment count in 32 bits (`c-pallets/scheduler-credit/src/lib.rs:71`): integers are unbounded. Underflow, the index overflow of the allocator and the overflow of credit counters are modelled.
- Spans and records are kept per stash, where storage keys records by stash and span index; clearing by prefix is then clearing the stash.
- Chilling, validator disabling, sessions, the hook called after a ledger slash, and slashing of schedulers.
- Library arithmetic that is not part of the repository is written out as integer functions: nearest, down and up rounding of parts per billion and per quintillion.
- Random numbers, the block number, the success of currency transfers and reservations, and the stash lookup are parameters. The allocator model takes any random function.
- ApplySlash.Balances.DoSlash: a balance is one number per account, without locks, reserves or the minimum to stay alive.
- Buckets, hold lists, file names and sizes, permissions, pending replacements, events and weights of file calls; emptying a bucket is given the hashes it holds.
- Deals.Step: bounds on list lengths other than the report, deletion and idle-file limits are not modelled, and restoral targets of exited miners are not, since miners do not exit in these runs.
- FileBank.Pallet.RemoveFileLastOwner: takes one fragment at a time where the call groups them by miner; both fail exactly when some miner has too little.
- UserSpace.StorageHandler.UpdateUserSpace: giving space back for a missing account fails here, where the call would panic; it is rolled back either way.
- Miner exit and withdrawal inside the space runs, the loop that clears dead files at block start, ownership transfer, and orders for fragments of exited miners: they leave stale counters by design. Exits are part of the reward pool.
- Prices, lease dates and renewal, the network's purchased space, and the removal of dead leases: buying, expanding and freezing a user's space are part of the runs, at any time and in any size.
- Staking.PlainCutSweepsDust: one mode only, as a plainer case of Staking.SweepsDustIff.
- Ownership.DeletionNeverFails: one direction only, under conditions easier to check than the exact one of Ownership.DeletionSucceedsIff.
- SpanSlash.SpansWithinProportion: spans since the last clearing only, as the largest report of a span has no meaning across one; for records across clearings see SpanSlash.PaidWithinProportion.
- Completion.ExpirySucceeds: one direction only, a consequence of Completion.ExpirySucceedsIff.
- Completion.FirstCompletionSucceeds: one direction only, a consequence of Completion.CompletionSucceedsIff.
- Allocation.SelectMiners: with more than fifteen miners it does not say which fifteen the random numbers draw.
- The audit rounds themselves: a snapshot and the verified miners are given; `MinerRewards.TakeSnapshot` models its totals only.
- Elections, staking calls, inflation, object storage, caching, enclave certificates, node and runtime wiring.
