# Verification of the SPF transporter

The transporter moves SPF burned on the ScPrime chain to tokens minted on Solana. This project
models its ledger, its mint and recovery protocol, its emission arithmetic and its queue lock in
Dafny, and proves what the parts keep together.

`dafny verify dfyconfig.toml` checks the whole project.

## What is modelled

**The ledger** (`Tables`, `Ledger`). A database is a value: unconfirmed burns, three transport tables,
`solana_transactions`, premined limits and flags. Every transport table is a supply chain, each row
continuing from the previous row's `supply_after`, with NULL for 0 at the root. All limits and the
queue size come from `MAX(supply_after)` and differences of maxima. `Ledger.Inv` says why that is right:
the rows form a gapless chain, completed rows are a prefix of it and at most the next row carries an
unconfirmed Solana id, every burn is in one place, and the caps hold. That premined accounts balance is
a property of its own, `Ledger.PreminedInv`, because a removal can break it. Each storage operation is a
function from database to database, and each is proved to keep `Ledger.Inv`.

**The storage object** (`StorageSpec`, `TransporterDb`). The class `TransporterDB` holds the database in a
field. Its methods follow the code: a working copy per transaction, loops that grow lists, a cached
supply per type, deletion at the end, rollback by dropping the copy. Each is proved to do what the
ledger function says. The `available` parameters say whether a transaction can be carried out;
`failedCommits` counts attempts of a read whose commit failed before the one that went through; a `Commit` says
whether a write commits, cannot be carried out, or takes effect but is reported as failed and run again.

**The protocol** (`MintProtocol`, `MintLanes`, `MintSafety`, `MintTheorems`, `Agreement`, `PreminedRuns`, `WitnessRuns`).
A state machine of the mint loop, start-up recovery, the ledger steps that run beside them, and a Solana contract
that executes a mint only at the supply the transaction names. A transaction that was sent may land at any time, fail
or vanish. Nothing ties its landing to the status answers: `TxStatus` may fail, and may call unminted what has executed,
is still pending, or lands after another transaction for the same burn was sent, in `mint` and in recovery alike; what it
calls minted has executed. The server may crash between any two steps. `MintSafety.StepKeepsInv` keeps one invariant
over all 26 kinds of steps, and every theorem follows from it for every run; `Agreement` says exactly when
ledger and contract agree. A run covers removal lists with repetitions and burns that are gone, and confirmation lists
that are stale; the reads of `processMints` deliver their lists once. What is said of premined maxima holds of the runs
whose removals are orderly (`PreminedRuns.OrderlyRemovals`).

**Reads whose commit fails** (`RetriedReads`, `RetriedRuns`, `RetriedOrder`, `RetriedQueue`). The same machine with one
more event, an attempt of a read whose commit fails and whose list stays. The invariant of the protocol does not survive
it; a weaker one does, and carries at-most-once minting, emission and the caps over every such run, late landings
included.

**Status and data over runs** (`BurnStatus`, `StatusRuns`), **interleaved transactions** (`Concurrency`),
**the server object** (`QueueLock`, `Admission`, `LoopSpec`, `PassEffect`, `RepeatedMint`, `Server`) and its storage calls as
steps of the protocol (`ServerRefinement`, `SubmittedRuns`), **emission** (`Emission`), **units and transactions** (`SolanaUnits`, `SolanaStatus`,
`ScpTransaction`) and what they are to the protocol (`SolanaSide`).

Identifiers and addresses are opaque values with equality. Amounts are unbounded as `types.Currency` is; every
conversion to int64 or uint64 is written out and proved harmless where it is. Times are nanoseconds.
`Currency.Sub` yields zero on underflow, as it does once its report of a critical error has returned.

## What does not hold, and when it does

- Ledger and contract agree after recovery exactly when no transaction whose id was overwritten or forgotten executes, be it
  before that or after. As long as no status answer writes off a transaction that executed or can still land, they agree.
  The code does write such transactions off: a failed or negative `TxStatus` makes `mint` record the next id
  (loops.go:102-113) and makes recovery forget the id (server.go:219-238). The contract then refuses the second mint, but
  the loss is never repaired: every later start is refused. (`NothingLostIff`, `ComparisonPassesIff`, `NoSlipNoLoss`,
  `SlipLosesMint`, `LossIsForever`, `LossIsReachable`, `LateLanding`)
- Premined accounts stay in order over a removal exactly if it gives no premined burn back twice. A removal list
  repeats its burns after a failed commit of the read before it (transporterdb/transporterdb.go:707-720), and
  a removal runs twice if it takes effect but its commit is reported as failed. Then the address can burn
  more than its maximum. (`RemovalKeepsPreminedIff`, `RepeatedRemovalIff`, `RepeatedPassIff`,
  `PreminedMaximumCanBeExceeded`)
- A confirmation list delivered twice is refused by the primary keys, so that the pass confirms nothing; recovery over
  a repeated list changes nothing the second time. (`RepeatedConfirmationIsRefused`, `RepeatedRecovery`)
- A read of `processMints` that went through after a failed commit lists its requests again. At-most-once minting,
  emission and the caps survive. That completed burns stay completed, and that no chain loses part of its
  completed prefix, survives exactly if no commit failed, or there was nothing to read, or a mint is lost that comes
  before the second copy, so that this is never reached; that completed rows are a prefix at all, exactly if besides
  these at most one request was read. A request that comes again is refused by the contract until the server crashes.
  (`StillMintedAtMostOnce`, `RetriedReadIff`, `OrderIsKeptIff`, `StuckUntilCrash`, `CompletionCanBeTakenBack`)
- The storage computes the queue size from two maxima. That is never more than the queue, and its size exactly while
  completed rows come first. A completion that is taken back makes the queue larger by its row, so that it can exceed its
  limit: after a repeated read of one request, exactly if more than the limit can be burned from its row on.
  (`FastQueueSizeIff`, `SizesAgreeIff`, `LimitIsKeptIff`, `LimitCanBeExceeded`)
- `QueueSize` reports a failed transaction as an empty queue (transporterdb/transporterdb.go:504-506), and
  `checkQueue` then releases the lock of a queue that is not empty. (`QueueSize`, `CheckQueue`,
  `LockCanBeReleasedUnread`)
- The subtraction of `CheckAllowance` from the preliminary limit underflows, and then quotes nothing, exactly
  when the queue has grown beyond that limit, which the full limit permits. On the path of
  `AddUnconfirmedScpTx` no subtraction underflows, except that of a premined account that went below zero, which
  then has no room. (`QueueAllowance`, `QueueCanOutgrowQuotes`, `AddUnconfirmedScpTx`, `LimitRoomIs`)
- `TransportStatus` reports a known burn as not found exactly if it is confirmed between its two lookups.
  (`MissedIff`, `MissedIsReachable`)
- Two confirmations that read the same end of a chain cannot both commit if the chain is not empty. At the
  root, where `supply_before` is NULL, both commit exactly when the amounts differ. Two that confirm a common burn
  never both commit. (`InterleavedConfirmations`, `RootIsNotProtected`)
- `TimeTillSupply` returns a sufficient wait exactly when the wait fits a `time.Duration`, and `EmissionTime` is
  exact exactly when its minutes do; both hold for all supplies up to the total and present-day clocks.
  (`LeastWait`, `EmissionTimeExact`, `EmissionTimeCanWrap`)
- Release is strict, `supply_after < allowed` (transporterdb/query.sql:148), while a burn may be admitted up to
  the total supply itself. So no claim is made that every queued row becomes eligible.

## Model

| member | source | states |
|---|---|---|
| Emission.EmissionInverse | spfemission/emission.go:18-37 | For 0 < s <= TotalSupply and every time t, `AllowedSupply(t) >= s` iff `t >= SupplyTime(s)`, even where the subtraction of instants saturates |
| Emission.LeastWait | spfemission/emission.go:44-55 | `TimeTillSupply` fails exactly above the total supply, is zero exactly when the supply is reached, suffices exactly when representable, and no shorter wait suffices |
| Emission.EmissionTimeExact | spfemission/emission.go:39-42 | `EmissionTime` is the exact whole-minute duration iff its product stays in int64, and for changes up to the total supply it is the least duration emitting them |
| Emission.EmissionTimeCanWrap | spfemission/emission.go:39-42 | The least change whose wait leaves int64, more than twenty times the total supply: its wait is negative |
| Emission.AllowedSupplyMonotone | spfemission/emission.go:18-29 | Allowed supply never shrinks as the clock advances |
| Common.DivRoundUp | common/helpers.go:47-49 | The least whole number of units that covers the amount |
| SolanaUnits.IntPow | solana/util.go:3-17 | Square-and-multiply returns base^exp wrapped to int64 for every exponent on which its loop ends, and terminates there |
| SolanaUnits.ShiftingEndsIff | solana/util.go:9-12 | Shifting the exponent reaches zero, where the loop ends, exactly if it is not negative |
| SolanaUnits.DecimalizationRoundTrip | solana/minter.go:188-208 | Multiplying an amount into raw units and dividing back is the identity iff the product fits uint64 |
| SolanaUnits.RawMintIsTokenMint | solana/minter.go:386-408 | With three decimals, for supplies whose raw units fit uint64, comparing and adding raw units is comparing and adding tokens |
| SolanaSide.RawLanding | solana/minter.go:183-208 | A pending transaction executes in the protocol exactly if the raw units of the contract equal those it names, and the new supply is the one read back from the raw sum: for queue and airdrop in every reachable state, for premined supply as long as its raw units fit |
| SolanaStatus.TxStatus | solana/minter.go:416-480 | All statuses or an error; "confirmed and successful" holds of exactly the transactions that are finalized, undisturbed calls of the minter |
| SolanaSide.AnswerIsStep | loops.go:102-113 | Whatever a truthful node answers, `mint` takes an enabled step: it marks the transaction iff the answer is that it minted, and slips iff it is not and the transaction executed or can still land |
| SolanaSide.AnswersAreVerdicts | server.go:206-238 | The verdicts recovery acts on are the answers of a truthful node, record by record |
| ScpTransaction.BurntAmount | common/helpers.go:21-29 | The loop sums the outputs to the burn address, and is positive iff one of them is |
| ScpTransaction.BurnedAdds | common/helpers.go:21-29 | The sum of two lists of outputs is the sum of their sums; with `BurnedOne`, an output counts by its value exactly if it goes to the burn address |
| ScpTransaction.ExtractUnlockHashes | common/helpers.go:31-41 | Every spending address exactly once, in order of first occurrence; a single one iff all inputs spend from the same address, and then it is that one |
| ScpTransaction.ExtractIff | common/helpers.go:55-84 | An address is read back from what was written for it, and from no other data |
| ScpTransaction.NumberNamesAddress | common/types.go:74-76 | The numbers that name addresses in the model are different for different addresses |
| ScpTransaction.ExtractAddress | scprime/scprime.go:81-90 | The recipient is the address in the first piece of arbitrary data that holds one; an error iff none does |
| Tables.OrderlyMeaning | transporterdb/query.sql:8-19 | Completion in order says exactly that every row with a Solana id has only completed rows before it |
| Tables.MaxIsEnd | transporterdb/query.sql:24-31 | On a chain the maximum over all rows is the supply after the last row |
| Tables.MaxCompletedIsEnd | transporterdb/query.sql:8-11 | The maximum over completed rows is the supply after the completed prefix |
| Tables.MaxRecordedIsEnd | transporterdb/query.sql:8-19 | `solana_id IS NOT NULL` and `confirmed = TRUE` give the same maximum exactly when no row is in flight |
| Tables.OutstandingIs | transporterdb/query.sql:8-31 | The amounts of uncompleted rows, added one by one, telescope to a difference of two chain positions |
| Tables.InFlightIsFront | transporterdb/query.sql:151-162 | The rows joined with an unconfirmed transaction are the row at the front of the chain, if it has an id |
| Tables.OrderByAfterSorts | transporterdb/query.sql:129-149 | ORDER BY supply_after permutes the rows into ascending order |
| Tables.UncompletedIsSegment | transporterdb/query.sql:129-149 | With nothing in flight, the rows selected for minting are exactly the next rows of the chain, in chain order, up to the first one at or above the bound |
| Tables.InsertAtEnd | transporterdb/schema.sql:39-75 | After the end of a chain all UNIQUE, REFERENCES and CHECK constraints reduce to the check that supply grows |
| Tables.ChainExtend | transporterdb/schema.sql:39-75 | A row that continues from the end keeps the table a gapless chain and every earlier position |
| Ledger.FreshInv | transporterdb/transporterdb.go:170-196 | A freshly created schema with premined limits satisfies the ledger invariant, with the premined accounts in order |
| Ledger.QueueSizeIsDifferenceOfMaxima | transporterdb/transporterdb.go:456-508 | Difference of maxima plus unconfirmed sum equals the amounts of all regular burns not yet completed; neither subtraction underflows |
| Ledger.AdmitKeepsInv | transporterdb/transporterdb.go:603-674 | Admitting a burn keeps chains, locations and all caps, and premined accounts that are in order |
| Ledger.AmountFits | transporterdb/transporterdb.go:643-662 | Every admitted amount fits a bigint |
| Ledger.RemoveAllKeepsInv | transporterdb/transporterdb.go:839-862 | Removing any list that keeps the accounts within bigint, repeated or of burns that are gone, keeps the invariant, and exactly the listed burns are gone |
| Ledger.RemovalKeepsPreminedIff | transporterdb/transporterdb.go:839-862 | Removing rows keeps the premined accounts in order iff no premined burn is listed twice; every account ends short by exactly what was given back too often |
| Ledger.ConfirmOneSucceeds | transporterdb/transporterdb.go:727-773 | Confirming a burn is refused iff its supply leaves bigint; regular and airdrop burns are never refused |
| Ledger.ConfirmAllNeedsFreshRows | transporterdb/schema.sql:39-75 | A confirmation of burns that are or were rows succeeds only if each is a row still and is listed once: the primary keys refuse the rest |
| Ledger.ConfirmOneAppends | transporterdb/transporterdb.go:727-773 | Confirmation appends one row at the end of the right chain, with the amount and previous supply that were inserted, NULL read as 0 |
| Ledger.ConfirmOneKeepsInv | transporterdb/transporterdb.go:788-820 | Confirmation keeps the invariant and leaves queue size, end supplies and completion as they are |
| Ledger.ConfirmAllKeepsInv | transporterdb/transporterdb.go:788-820 | A batch keeps the invariant, and exactly its burns leave `unconfirmed_burns` |
| Ledger.ConfirmAllExtends | transporterdb/transporterdb.go:788-820 | A batch only extends the chains, with rows that have no Solana id |
| Ledger.SetHeightsKeepsInv | transporterdb/transporterdb.go:822-837 | Recording heights keeps the invariant |
| Ledger.SetHeightsEffect | transporterdb/query.sql:194-196 | Exactly the listed burns get the height and nothing else changes |
| Ledger.SolanaChangeKeepsInv | transporterdb/transporterdb.go:864-938 | Solana bookkeeping that keeps the order of completion and takes none back keeps every invariant and cap |
| StorageSpec.AdmittedIff | transporterdb/transporterdb.go:603-641 | The checks of `AddUnconfirmedScpTx`, by maxima and limits rows, amount to the admission rule over sums |
| StorageSpec.RoomFits | transporterdb/transporterdb.go:625-652 | An amount within its allowance converts to int64 unchanged |
| StorageSpec.SelectBeforeIs | transporterdb/query.sql:198-199 | The burns before a time, each once, oldest first |
| StorageSpec.DeleteAnyAppend | transporterdb/query.sql:201-202 | Deleting a batch of ids at the end is deleting them one at a time |
| StorageSpec.BatchStep | transporterdb/transporterdb.go:793-813 | One iteration of the batch loop with its cached supply equals confirming that burn on its own, and the cache equals what the MAX query would return |
| StorageSpec.ConfirmAllSucceeds | transporterdb/transporterdb.go:788-820 | No constraint can refuse a batch of unconfirmed burns, whatever types it mixes, while premined supply fits a bigint |
| StorageSpec.RepeatedRemovalIff | transporterdb/transporterdb.go:839-862 | A removal list delivered n + 1 times keeps the premined accounts iff n = 0 or no premined burn is in it; a removal that takes effect twice iff no premined burn is in it |
| StorageSpec.RepeatedConfirmationIsRefused | transporterdb/transporterdb.go:788-820 | A confirmation list delivered more than once, or confirmed again after its effect was reported as failed, is refused |
| StorageSpec.RerunIsHarmless | transporterdb/transporterdb.go:822-938 | Recording heights, forgetting an id and confirming an id may run again without changing anything |
| StorageSpec.UnconfirmedSumFits | transporterdb/transporterdb.go:353-373 | The sums that are parsed as int64 stay within the caps of the two types they are asked for |
| StorageSpec.FlagIsLastWrite | transporterdb/transporterdb.go:1228-1272 | After any writes a flag reads as the last value written to it, whatever was written to others; false if none was |
| StorageSpec.FrontRecorded | transporterdb/transporterdb.go:887-923 | Recording a new id at the front of a chain keeps the invariant and puts exactly this id in flight |
| StorageSpec.FrontForgotten | transporterdb/transporterdb.go:864-885 | Forgetting the id at the front keeps the invariant and leaves nothing in flight there |
| StorageSpec.FlightConfirmed | transporterdb/transporterdb.go:925-938 | Confirming the id in flight completes exactly the front row of exactly one chain |
| StorageSpec.InFlightIs | transporterdb/transporterdb.go:1184-1209 | The records with an unconfirmed Solana transaction are exactly the front rows that carry an id |
| TransporterDb.TransporterDB.constructor | transporterdb/transporterdb.go:170-196 | Empty tables and the given premined limits satisfy the invariant |
| TransporterDb.TransporterDB.QueueState | transporterdb/transporterdb.go:460-487 | Both maxima are the chain positions of completion and of the end |
| TransporterDb.TransporterDB.QueueSize | transporterdb/transporterdb.go:489-508 | The queue size burn by burn, or zero for a failed transaction; otherwise zero iff nothing is queued or unconfirmed |
| TransporterDb.TransporterDB.AirdropAllowance | transporterdb/transporterdb.go:510-521 | The airdrop cap less everything burned for it, without underflow |
| TransporterDb.TransporterDB.PreminedAllowance | transporterdb/transporterdb.go:523-546 | Fails unless every address is listed once, premined and not blocked; otherwise each gets its maximum less its unconfirmed and transported sums |
| TransporterDb.TransporterDB.QueueAllowance | transporterdb/transporterdb.go:548-571 | The smaller of room in the queue and supply left; the queue subtraction reads as zero exactly when the queue exceeds the limit asked about |
| TransporterDb.TransporterDB.CheckAllowance | transporterdb/transporterdb.go:573-601 | All three allowances, against the preliminary limit, or an error exactly for unusable or repeated addresses |
| TransporterDb.TransporterDB.AllowanceFor | transporterdb/transporterdb.go:616-638 | The allowance of a burn's type equals the room the ledger has for it |
| TransporterDb.TransporterDB.AddUnconfirmedScpTx | transporterdb/transporterdb.go:603-674 | Admits iff the burn is new, positive and within its room; then adds exactly it; otherwise the first failing check is reported and nothing changes. A commit that is not acknowledged admits the burn and reports that it exists |
| TransporterDb.TransporterDB.UnconfirmedBefore | transporterdb/transporterdb.go:703-725 | The old burns, oldest first, repeated once per failed commit |
| TransporterDb.TransporterDB.ConfirmUnconfirmed | transporterdb/transporterdb.go:788-820 | All or nothing, with the outcome of confirming the burns one at a time; repeated or stale lists are refused; a commit that is not acknowledged confirms the batch and reports an error; the requests returned are those the stored rows read back as |
| TransporterDb.TransporterDB.SetConfirmationHeight | transporterdb/transporterdb.go:822-837 | Sets the height of exactly the listed burns; uint64 heights survive the bigint column |
| TransporterDb.TransporterDB.RemoveUnconfirmed | transporterdb/transporterdb.go:839-862 | Removes the burns and gives premined amounts back once for every time they are listed and every time it takes effect; for rows without repetition the accounts stay in order iff it takes effect once or no premined burn is listed |
| TransporterDb.TransporterDB.AddSolanaTransaction | transporterdb/transporterdb.go:887-923 | Fails iff the id exists or the commit fails, with or without effect; records it in one row of one table, on any ledger; at the front of a chain it keeps the invariant |
| TransporterDb.TransporterDB.RemoveSolanaTransaction | transporterdb/transporterdb.go:864-885 | Forgets the id of one row; at the front of a chain it keeps the invariant |
| TransporterDb.TransporterDB.ConfirmSolana | transporterdb/transporterdb.go:925-938 | On any ledger, stores the time with exactly that transaction and changes no transport table; completes exactly the row in flight under that id |
| TransporterDb.TransporterDB.ConfirmedSupply | transporterdb/transporterdb.go:383-423 | Each supply is a chain position; airdrop and premined count the row in flight, the queue does not |
| TransporterDb.TransporterDB.TransportRecord | transporterdb/transporterdb.go:983-1077 | The record of a burn in a transport table, reading back the request it was confirmed with, the Solana id its row carries and its completion; an error iff there is none |
| TransporterDb.TransporterDB.UnconfirmedInfo | transporterdb/transporterdb.go:940-961 | The unconfirmed burn with that id, or an error iff there is none or the lookup fails |
| TransporterDb.TransporterDB.NextRequests | transporterdb/transporterdb.go:1079-1182 | With nothing in flight, the next rows of the chain below the bound, in order, once more for every commit that failed |
| TransporterDb.TransporterDB.RecordsWithUnconfirmedSolana | transporterdb/transporterdb.go:1184-1209 | Exactly the rows in flight, once more for every commit that failed |
| TransporterDb.TransporterDB.FindPremined | transporterdb/transporterdb.go:311-331 | Exactly the listed addresses that are premined, not blocked and not depleted |
| TransporterDb.TransporterDB.SetFlag | transporterdb/transporterdb.go:1228-1253 | From now on the flag reads as written and all others as before; the ledger is kept |
| Concurrency.OnlyCurrentEndAccepts | transporterdb/schema.sql:69-71 | A row after an earlier end of a non-empty chain is accepted only if that is still the end |
| Concurrency.StaleCommitIsSerial | transporterdb/transporterdb.go:788-820 | A confirmation with non-zero supplies read some time ago that still commits has the effect of one that runs now |
| Concurrency.InterleavedConfirmations | transporterdb/transporterdb.go:243-271 | Of two interleaved confirmations the second to commit fails or acts as if it ran second; it fails if both confirm a common burn, or a common type read ahead |
| Concurrency.RootIsNotProtected | transporterdb/schema.sql:64-71 | At the NULL root two concurrent first rows are both accepted iff their amounts differ, and then there is no chain |
| MintLanes.LaneLand | solana/minter.go:183-185 | A landing, however late, executes only at the supply it names; then it is the first mint of its burn, and lost to the ledger exactly if the front row does not carry its id |
| MintLanes.LaneSave | loops.go:94-101 | Recording a new id at the front, whatever became of the old one, loses a mint exactly if the contract had minted the row |
| MintLanes.LaneMark | loops.go:115-120 | Confirming the executed front transaction moves the front by one row and aligns ledger and contract |
| MintLanes.LaneForget | server.go:234-238 | Forgetting the id at the front keeps ledger and contract related, and loses a mint exactly if the contract had minted the row |
| MintSafety.InitialInv | server.go:101-128 | The protocol invariant holds of a fresh ledger and contract |
| MintSafety.StartFindsFlight | server.go:206-214 | Recovery finds no record or exactly the one in flight, whatever `TxStatus` answers |
| MintSafety.GroundedSupply | server.go:191-204 | With nothing in flight the compared supplies are equal iff no mint is lost to the ledger |
| MintSafety.ReadIsSegment | loops.go:126-142 | A read of `processMints` returns the next rows of a chain, all below the allowed supply for the queue |
| MintSafety.WorkAppends | loops.go:127-142 | The concatenated lists ask for each row when it will be at the front of its chain |
| MintSafety.RequestIsFront | loops.go:145-148 | The request being minted is for the front row, at the supply of the completed rows, and emission allows it |
| MintSafety.WorkPops | loops.go:145-148 | Completing a request leaves the rest of the list valid |
| MintSafety.StepKeepsInv | loops.go:86-150 | Every step of mint, recovery, the loops and the environment keeps the protocol invariant, with landings at any time and status answers that miss them |
| MintTheorems.RunInvariant | loops.go:36-150 | The invariant holds in every state of every run |
| MintTheorems.RunGoesOn | loops.go:36-150 | A run goes on by any enabled steps, so that what is said of runs holds of the steps of the loops below |
| MintTheorems.ExecutedOnce | loops.go:81-124 | Of all transactions built for one burn, several of which may be outstanding together, at most one is executed |
| MintTheorems.BurnMintedAtMostOnce | loops.go:81-124 | Over a whole run, with retries, restarts and landings however late, before or after any status answer about them, no two steps mint the same burn |
| MintTheorems.ContractHoldsPrefix | solana/minter.go:183-208 | The contract supply of each type is 0 or a row's `supply_after`; the burns up to there are minted and no others |
| MintTheorems.PrefixAndSingleFlight | transporterdb/query.sql:151-162 | Completed rows are a prefix of each chain, and at most one record over all tables has an unconfirmed Solana id |
| MintTheorems.RequestNamesCurrentSupply | loops.go:145-148 | The request being minted names the contract's current supply exactly while its burn is not minted |
| Agreement.LostIffOrphan | solana/minter.go:183-208 | In every reachable state, no mint is lost to the ledger iff every executed transaction is recorded in a row |
| Agreement.NothingLostIff | loops.go:86-113 | In every state of every run, no mint is lost to the ledger iff no transaction whose id was overwritten or forgotten has executed, before that or since |
| Agreement.LossIsForever | server.go:191-204 | A mint that is lost to the ledger stays lost in the rest of the run |
| Agreement.NoSlipNoLoss | loops.go:102-113 | As long as no status answer wrote off a transaction that executed or could still land, nothing is lost |
| Agreement.RecoveredLedger | server.go:191-242 | After recovery no row has an unconfirmed id, the two notions of confirmed supply coincide, and ledger and contract agree iff no mint is lost |
| Agreement.ComparisonPassesIff | server.go:191-204 | The start-up comparison passes iff no transaction whose id was overwritten or forgotten has executed by then; once refused, every later start is refused |
| Agreement.RecoveryCompletes | server.go:206-242 | From every reachable stopped state, whatever `TxStatus` answers, recovery runs to its end without touching the contract, and the server starts iff no mint is then lost |
| Agreement.RecoveryLosesNothing | server.go:219-238 | Recovery in which `TxStatus` recognises what minted loses no mint |
| Agreement.SlipLosesMint | loops.go:105-113 | After a status answer, an error or not, writes off an executed transaction, building and saving the next one loses the mint |
| WitnessRuns.LossIsReachable | loops.go:86-113 | A concrete run in which that happens |
| WitnessRuns.LateLanding | loops.go:102-113 | A concrete run in which a transaction lands after it was given up and the next one is recorded and sent: it mints, the other is refused, ledger and contract are apart, and the next start is refused |
| MintTheorems.EmissionSafety | loops.go:138-148 | The contract's regular supply never exceeds the allowed supply of the moment nor the total supply |
| MintTheorems.MintedWithinLimits | transporterdb/schema.sql:29-37 | Minted airdrop supply stays within its cap, and what is minted from a premined address within its maximum while the premined accounts are in order |
| PreminedRuns.StepKeepsAccountsIff | transporterdb/transporterdb.go:603-862 | A step that removes only rows keeps the premined accounts in order exactly if it removes no premined burn twice |
| PreminedRuns.RunKeepsPreminedLimits | transporterdb/schema.sql:29-37 | In every run whose removals are orderly, every premined address stays within its maximum with all it has unconfirmed, queued and minted |
| PreminedRuns.PreminedMaximumCanBeExceeded | transporterdb/transporterdb.go:839-862 | A concrete run: a burn removed twice by one list, then 110 outstanding from an address with a maximum of 100 |
| MintTheorems.EveryReachableState | loops.go:36-150 | In every state of every run: single flight, contract on its chains, emission, caps, and the queue size formula |
| RetriedReads.MintFirst | loops.go:145-148 | From a clean state the first requests of the list can be minted one after the other if no mint of their kinds is lost, whatever comes behind them |
| RetriedReads.OverwritesCompleted | transporterdb/transporterdb.go:887-923 | Recording a new id for a completed row takes its completion back, and breaks the order of completion if another completed row follows it |
| RetriedOrder.RetriedReadIff | transporterdb/transporterdb.go:1079-1182 | A read that went through after n failed commits: completed burns stay completed, and the completed prefix of every chain is kept, whatever follows, exactly if n = 0, or there was nothing to read, or a mint is lost that comes before the second copy |
| RetriedOrder.OrderIsKeptIff | transporterdb/transporterdb.go:1079-1182 | After such a read completed rows are a prefix of every chain, whatever follows, exactly if n = 0, or at most one request was read, or a mint is lost that comes before the second copy |
| RetriedRuns.EmptyRetriesAreHarmless | transporterdb/transporterdb.go:243-271 | Runs in which reads with failed commits had found nothing keep the invariant of the protocol |
| RetriedRuns.EventKeepsSafe | loops.go:126-150 | Every step, landings and status answers in any order included, and every attempt of a read whose commit fails, keeps what the contract guards by its supply |
| RetriedRuns.StillMintedAtMostOnce | loops.go:81-150 | No burn is minted twice in any run, however often its request was read, however late a transaction for it lands and whatever the status answers were |
| RetriedRuns.EveryEventState | loops.go:126-150 | In every state of every such run: one executed transaction per burn, the contract holds exactly a prefix of each chain, emission and caps |
| RetriedRuns.StuckUntilCrash | loops.go:86-124 | A request that comes again for a minted burn is retried, always refused, until the server crashes |
| RetriedRuns.GatheredWithRetries | loops.go:126-143 | The list gathered over reads with failed commits is the one these attempts leave |
| RetriedRuns.CompletionCanBeTakenBack | loops.go:126-150 | A reachable state from which one failed commit lets a completion be taken back |
| RetriedQueue.FastQueueSizeIff | transporterdb/transporterdb.go:456-508 | The difference of maxima is never more than the amounts outstanding, and equal to them iff completed queue rows come first |
| RetriedQueue.EveryQueueSize | transporterdb/transporterdb.go:456-508 | The same in every state of every run with reads repeated at will |
| RetriedQueue.OverwritingGrows | transporterdb/transporterdb.go:887-923 | A new id over a completed row of the queue makes the queue larger by exactly the amount of that row |
| RetriedQueue.SizesAgreeIff | transporterdb/transporterdb.go:489-508 | After a read with n failed commits the storage keeps computing the size of the queue, whatever follows, if completed rows stay in order as above; after a read of the queue, only then |
| RetriedQueue.LimitIsKeptIff | transporterdb/transporterdb.go:603-674 | After a read of at most one request with n failed commits, the queue stays within its limit, whatever follows, exactly if n = 0, or nothing was read, or the second copy is never reached, or the request is not for the queue, or all that can be burned from its row on fits the limit |
| RetriedQueue.LimitCanBeExceeded | transporterdb/transporterdb.go:489-508 | A reachable state from which one failed commit lets the queue exceed its limit |
| BurnStatus.LookupIs | transporterdb/transporterdb.go:983-1059 | The search over the three tables finds a burn where it is, with its own row |
| BurnStatus.InfoWhere | server.go:397-422 | A known burn is in one table or unconfirmed, never both, and the status tells which |
| BurnStatus.MissedIff | server.go:397-422 | A burn that is known throughout is reported as not found exactly if it was confirmed between the two lookups |
| WitnessRuns.MissedIsReachable | server.go:397-422 | A concrete run: a burn is submitted, its height recorded, and it is confirmed between the two lookups, which miss it |
| StatusRuns.StepKeepsTables | transporterdb/transporterdb.go:788-938 | Rows never leave their table nor change but for the id, completion advances only over the row in flight, and only recovery forgets ids |
| StatusRuns.ConfirmAllKeepsInfo | transporterdb/transporterdb.go:775-820 | Confirming a batch keeps the type, amount and recipient of every burn |
| StatusRuns.StepKeepsInfo | transporterdb/transporterdb.go:603-862 | What is known of a burn is created by its submission, never changes, and is dropped only by removal while unconfirmed |
| StatusRuns.StepMovesStatus | server.go:397-422 | The status moves one stage forward, or back from Unconfirmed by removal and from SolanaTxCreated by recovery, and in no other way |
| StatusRuns.CompletedIsFinal | server.go:413-415 | Completed is permanent over every run |
| StatusRuns.StatusTellsMint | server.go:397-422 | Completed burns are minted; minted burns are reported with a transaction, or queued only while a mint is lost to the ledger |
| StatusRuns.MintsWhatLedgerHolds | solana/minter.go:188-208 | Every built transaction mints the type, amount and recipient the ledger holds for its burn |
| StatusRuns.MintedAsSubmitted | loops.go:86-150 | End to end, a burn is minted with the type, the amount and the address of its last submission |
| SubmittedRuns.SubmissionIsStep | server.go:373-384 | A submission that changes the ledger is a `Submit` step of the protocol, with the record of its transaction |
| SubmittedRuns.MintedToItsAddress | server.go:328-395 | End to end, a burn is minted to the address in the first piece of its own transaction that holds one, with the amount that transaction sends to the burn address |
| StatusRuns.KnownWasSubmitted | server.go:328-395 | The ledger knows only burns that were submitted |
| QueueLock.LockHysteresis | loops.go:155-175 | The queue is locked iff some observed size exceeded the limit, or it was locked at the start, and it was never seen empty since |
| QueueLock.LockCanBeReleasedUnread | loops.go:155-175 | A locked queue of 10 that one failed size transaction releases |
| QueueLock.LockedSince | server.go:142-154 | A lock found on that was off was set in between, and its time says so |
| QueueLock.LockIs | server.go:171-189 | With all at once, the hard answer is the flag, and the soft answer is yes iff the flag is set and this process never set it, or set it at least the gap ago; one by one both are no |
| QueueLock.LockBitesIff | loops.go:155-175 | After any run of `checkQueue` the lock keeps a submission out iff some check found the queue unlocked and above the limit, none since found it empty and the gap has passed since, or it was locked at the start, never seen empty, and not set by this process less than the gap ago |
| QueueLock.QuoteIsGreatest | server.go:303-315 | Of all amounts from the minimum on the quote covers exactly those within the maximum, the preliminary limit and the supply, while emission has started and the queue is not locked; a quote that is not zero is no less than the smaller of minimum and maximum |
| QueueLock.AmountErrorIs | server.go:244-252 | Too small iff below the minimum, too big iff the maximum counts and is exceeded |
| QueueLock.HonouredQuote | server.go:171-189 | A quoted amount submitted before the gap elapses is refused neither for amount nor lock nor capacity, if net growth is at most full minus preliminary limit and supply left covers it |
| Admission.KindIs | server.go:254-277 | Premined iff there is exactly one spending address and it is listed, unblocked and below its maximum; regular iff none is such and emission has started; never an airdrop; and the error of each remaining case |
| Admission.OutcomeIs | server.go:328-395 | A submission is accepted iff the node knows the transaction, it burns something for a usable address, its amount is within bounds, and queue or premined address take it; then the ledger grows by its record alone, a premined burn raises what its address transported and leaves the queue, any other leaves all limits; otherwise nothing changes and the error names the case |
| Admission.LockedOut | server.go:358-364 | Once a check locked the queue, none since found it empty and the gap has passed, every burn for the queue is refused and the ledger unchanged |
| QueueLock.QueueCanOutgrowQuotes | transporterdb/transporterdb.go:548-571 | A reachable queue above the preliminary limit: nothing is quoted, although 50 more would be admitted |
| QueueLock.HeightGapIsSigned | loops.go:60-61 | The wrapped unsigned difference is the signed one for heights below 2^63 |
| LoopSpec.PassLists | loops.go:46-64 | The three lists are disjoint, and a burn is confirmed only with a height recorded earlier and enough blocks since |
| PassEffect.SortedIs | loops.go:46-64 | Listed for removal are exactly the burns not on chain, for a height exactly those on chain without one, for confirmation exactly those on chain whose height is deep enough; each as often as it was read |
| PassEffect.PassIs | loops.go:36-79 | Whatever becomes of the calls of a pass: burns that are too young, or on chain with too few confirmations, stay as they are; burns leave only if they are not on chain, and then for good, or for a new row of their own chain with their data; if the pass reports success each of them does; nothing else is added |
| PassEffect.PassSucceeds | loops.go:36-79 | A pass over a list that came once succeeds if its calls do, the premined accounts are in order and premined supply fits a bigint |
| PassEffect.PassKeepsAccounts | loops.go:36-79 | Such a pass keeps the premined accounts in order |
| LoopSpec.ListsStayInTable | loops.go:65-79 | Recording heights and removing burns leaves the burns still to be handled as they were read, and the invariant in place |
| LoopSpec.RepeatedPassIff | loops.go:36-79 | A pass over a list delivered n + 1 times, if its removal goes through, keeps the premined accounts exactly if n = 0 and the removal took effect once, or no premined burn was removed; with n > 0 it confirms nothing |
| LoopSpec.RecoveryGrounds | server.go:206-242 | Run to its end, the recovery loop completes the minted rows in flight, returns the others, and leaves nothing in flight |
| LoopSpec.RecoveryTimes | server.go:219-238 | After recovery each transaction that minted carries its own time of confirmation, and every other one is as it was |
| LoopSpec.RepeatedRecovery | server.go:206-242 | Over a list delivered several times the recovery loop changes nothing after its first round |
| LoopSpec.MintEffectIs | loops.go:86-124 | Whatever its attempts meet, mint touches only the id of the front row, and completes exactly that row, by the id of the transaction that minted, with its times |
| RepeatedMint.MintAgainIs | loops.go:86-124 | On a request for a completed row mint touches no other row; unless a new transaction mints it is never done, and the first id it saves takes the completion of the row back and leaves the completed prefix at that row |
| ServerRefinement.PassBesideOthers | loops.go:36-79 | With any submissions, landings, mints, crashes and recoveries between the read and each call, every call of a pass finds its rows as they were read, meets its conditions, and is enabled steps of the protocol |
| ServerRefinement.RecordedIdsUnique | transporterdb/schema.sql:21-27 | In every reachable state no Solana id is recorded in two rows |
| ServerRefinement.RecoveryIsTheLoop | server.go:206-242 | The server's recovery loop does to the ledger what the recovery steps of the protocol do, for any answers of `TxStatus` |
| ServerRefinement.GatheredIsTheList | loops.go:126-144 | The list the server gathers is the one the protocol works through |
| ServerRefinement.MintCanSucceed | loops.go:86-124 | From any request whose burn is not minted, as it never is if nothing was written off that minted or still could, the six failure-free steps are enabled in turn and mint it |
| ServerRefinement.ScriptIsSteps | loops.go:86-124 | Whatever the attempts of `mint` meet, failures included, what they do to the ledger is what enabled steps of the protocol do, and the protocol is then at the next request or still at this one |
| Server.Server.constructor | server.go:101-113 | A new server has no cached lock and no lock time |
| Server.Server.SetQueueLocked | server.go:142-154 | Writes the flag through, then the cache, and sets the lock time only when locking; changes nothing on failure |
| Server.Server.GetQueueLocked | server.go:156-169 | The lock equals the stored flag, loaded once |
| Server.Server.IsQueueLocked | server.go:171-189 | Never locked one by one; the hard answer is the stored flag; the soft answer is yes iff the flag is set and this process never set it or set it at least the gap ago |
| Server.Server.CheckQueue | loops.go:155-175 | Turns on only above the limit, and takes the time; turns off only if the queue is empty or its size could not be read |
| Server.Server.CheckAllowance | server.go:286-326 | What is left of the airdrop and of each premined address, and for the queue the greatest amount that would be taken on, as `QueueLock.QuoteIsGreatest` says |
| Server.Server.CheckUnlockHashes | server.go:254-277 | The type of a burn, or the error, told by the limits of its spending addresses and the time, as `Admission.KindIs` says |
| Server.Server.SubmitScpTx | server.go:328-395 | Accepts, refuses and stores as `Admission.OutcomeIs` says, at three readings of the clock; if the commit is not acknowledged the ledger grows all the same |
| Server.Server.TransportStatus | server.go:397-422 | Answers by its two lookups, between which the storage may have changed; on one state of the ledger the answer is the status of the burn; an error iff a lookup it needs fails |
| Server.Server.SortUnconfirmed | loops.go:45-64 | Builds the three lists, as `PassEffect.SortedIs` says, or stops at a burn the chain does not answer for |
| Server.Server.ProcessUnconfirmed | loops.go:36-79 | Every burn meets its fate as `PassEffect.PassIs` says, wherever the pass stops, for any number of failed commits of the read and any fate of the three calls; and it succeeds if nothing fails |
| Server.Server.HandleUnconfirmedSolana | server.go:206-242 | The loop stops between records or settles all of them, each confirmed one with its own time, for any number of failed commits of the read |
| Server.Server.CompareSupplyToSolana | server.go:191-204 | Passes iff both sides report and the three supplies are equal |
| Server.Server.GatherMints | loops.go:126-143 | With nothing in flight, the next rows of the premined, airdrop and queue chains, in this order, each once more for every commit of its read that failed |
| Server.Server.ConfirmUntilDone | loops.go:115-120 | Retrying until it works confirms the transaction once, on any ledger |
| Server.Server.Mint | loops.go:86-124 | Does what its attempts do one after the other, for any request and ledger. For the front row of a chain: touches only that row, and completes exactly it, with the id of a minted transaction. For a completed row: takes its completion back, and is done only by a new transaction that minted |

## Left out

- HTTP routing, generated client, configuration, process start and stop, tickers and sleeping: plumbing. The
  clock is a non-decreasing value, and waiting for the decay time settles nothing in the model.
- Solana RPC, websockets, signing, address derivation and instruction bytes, and the choice of
  instruction per type: the protocol meets the contract as an environment that executes, fails or drops
  what was sent.
- ScPrime consensus, transaction validity and the transaction pool: oracles for "valid?", "confirmed?", "in the pool?"
  and "current height"; the unlock hashes of inputs are given. Whether the Solana address may receive the amount is
  an oracle too.
- Encodings: hex and base58 strings, SQL driver types.
- Wait estimates of quotes and submissions, `PreminedLimits`, `History` (not implemented). `HasAirdrop` is
  constantly false, so `SubmitScpTx` never yields an airdrop; the ledger and the protocol keep the type.
- Isolation: the methods of the storage object are serialised transactions. `Concurrency` covers two
  interleaved confirmations only.
- The retry limit of transactions: attempts that fail on a unique violation fail the same way again when
  nothing else runs, and `failedCommits` has no bound. A write takes effect unacknowledged at most once per call.
- QueueLock.LockIs: for a gap that is a `time.Duration` other than the lowest one.
- SubmittedRuns.MintedToItsAddress: a burn id names one transaction, as it is its hash.
- LoopSpec.RepeatedPassIff: `IsTxConfirmed` answers for a burn the same way each time it is listed in one pass.
- TransporterDb.TransporterDB.ConfirmUnconfirmed: asks that the burns are rows of `unconfirmed_burns` or were and are
  confirmed by now, as what its one caller has read is; times of confirmation other than `queue_up` are not kept.
- TransporterDb.TransporterDB.RemoveUnconfirmed: asks for amounts that fit a bigint, and a source for premined
  burns, as everything read from `unconfirmed_burns` has.
- TransporterDb.TransporterDB.RecordsWithUnconfirmedSolana: the order of the UNION is fixed table by table.
- Server.Server.HandleUnconfirmedSolana: asks that no Solana id is recorded in two rows, as
  `ServerRefinement.RecordedIdsUnique` shows of every reachable state. In the protocol recovered transactions are
  confirmed at the time of recovery.
- ServerRefinement.ScriptIsSteps: a transaction is not built again under its id once it may have been sent.
- RetriedOrder.RetriedReadIff: the attempts of one read follow each other directly; `RetriedRuns` allows other steps
  between them.
- RetriedQueue.LimitIsKeptIff: says nothing of a read of several requests; then the storage may take the queue for smaller
  than it is (`RetriedQueue.SizesAgreeIff`), and admission itself goes by that size.
- RetriedQueue.SizesAgreeIff: for a read of premined or airdrop requests only the one direction is stated.
- Server.Server.Mint: termination depends on the environment and is not claimed; a script says what each attempt
  meets, and the clock stands still over it. Of the methods that find completion out of order only this one, `TryMint`, `ConfirmUntilDone` and
  the storage calls they make are stated; the others are stated on ledgers with completion in order.
- SolanaUnits.IntPow: a negative exponent makes the code loop forever, by `SolanaUnits.ShiftingEndsIff`, and is
  excluded.
