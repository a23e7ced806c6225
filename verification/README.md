# A verified model of the relayer

The relayer moves numbered packages from Binance Chain (BBC) to Binance Smart Chain (BSC). This
Dafny project models its relay protocol, its double-sign monitor, its transaction accounting and its
byte encodings, and proves what each of them keeps over all runs.

`dafny verify dfyconfig.toml` checks the whole project.

## How the model is built

**One future per environment.** `Chains.World` holds both chains as the relayer meets them: the
packages stored on BBC per channel and block, the BSC contract (deliveries per channel, synced header
heights), this relayer's pending transactions, and a record of what it sent and attempted. Every
external call first lets the chains make any moves (new packages, mining or dropping a pending
transaction in any order, rival relayers) and is then answered by a verdict of `Chains.Env`: it fails,
is served, is served a wrong number, comes back blank, or sends without saving its row. Statements
about all environments are statements about all runs. Blocks and their light-client headers are fixed
functions of the height.

**Assumptions on the environment.** The BSC contract is visible only through its interface. It is
taken to accept a package exactly when the sequence equals the channel's receive counter and the
header of its proof height is synced, and to accept every header sync. BBC nodes that answer a package
query with a value answer with the stored one. Rival relayers deliver stored packages. Where a result
speaks of a relayer that is alone (`Delivery.Alone`), blocks go by, packages are stored and its own
transactions are mined in nonce order while it works, and calls may fail; only rivals, dropped
transactions and wrong numbers are excluded.

**Code in its own form.** `Wire`, `BbcExecutor`, `BscExecutor`, `Relayer`, `DoubleSignMonitor`,
`TxTracker` and `EndpointPool` are classes whose methods carry the loops of the source. Each method is
proved equal to a function on worlds (or on the object's state), and the properties are lemmas about
these functions. The endless daemon loops stop after any given number of rounds. All uint64, int64,
uint16 and int8 arithmetic that can wrap is written out in `Machine`.

**Files.** `Machine` integers; `Decimal` text numbers; `Events` blocks and package events; `Chains`
the environment; `Stores` its stores by key; `Executors` the calls; `Calls` which call ends them;
`Cleanup` one cleanup; `Safety`, `Delivery`, `Convergence` what calls and cleanups keep, deliver and
converge to; `Relays` single relays; `Daemons` and `Relayer` the two loops; `Runs`, `Coverage`,
`Acceleration`, `Printed`, `HashTracking`, `SoleSender`, `Progress` whole runs: safety, cleanups,
what is passed by, changes noticed, acceptance, convergence; `DoubleSign`, `Interleavings` the
monitor; `Tracker`, `Rows`, `Accounting` the rows and the statistics; `Bytewise`, `Keys`,
`ConsensusState` the encodings; `Endpoints` the client choice; `Instances` concrete inputs for the
section below.

## Where the code does less than it seems to

Each general condition comes with a concrete input.

- Two comments of the competition daemon say that packages have been delivered on cleanup
  (relayer/daemon.go:46 and :73). A cleanup attempts at most 30 packages a channel and may stop early.
  `CleanupDeliversExactly`: one in which nothing fails leaves nothing exactly when no channel was more
  than 30 behind; `ThirtyFirstIsLeft` is a world where one package remains.
- The height of the competition daemon can fall. `HeightFallsExactly` says when: the height query failed
  or reported 0, and 0 - 1 wraps (`FailedQueryDropsHeight`). The round then cleans up at the largest
  height and all heights are gone through again from 0.
- The header-sync marker is not skipped when tasks are relayed. `RelayedExactly` says when it becomes
  a transaction, `MarkerIsNeverSent` when it never does; in `MarkerRound` it does.
- After one failed block read no validator-set change is noticed any more (`DaemonsNoticeChanges`,
  `ChangeGoesUnnoticed`).
- A relay that fails is only logged, and the round goes on. `RoundAcceptedExactly`: the contract then
  rejects what is submitted later in the round on the same channel, as in `SecondRelayIsRejected`.
- With repeated header numbers a double-sign cache forgets headers that are still inside its window;
  `DuplicateIsForgotten` is an instance, `KeysAreTheListExactly` and `CacheInvariant` the exact rule.
- The tracker counts a receipt before it writes the row, and ignores errors of the statistics row.
  `TotalRightExactly` says when the total stays right: the updates of the rows with a receipt share the
  fate of the statistics row. It goes wrong when a row update is lost (`LostRowMiscounts`), when the
  statistics row is not written (`LostStatisticMiscounts`) and when it is not read
  (`UnreadStatisticMiscounts`). `AlwaysConserved` holds all the same.
- A switch of the client increments the index before it wraps it, and a health round reads the index
  without the mutex. `IndexStaysInRange`: every access under the mutex is in range; `CrashesExactly`: a
  schedule ends in an index out of range exactly when a health round reads between the two statements
  of a switch from the last endpoint. With one endpoint every switch is such a switch
  (`OneEndpointCrashes`).
- The consensus-state encoding loses trailing zero bytes of the chain ID and cuts or pads the hashes;
  `EncodingCollidesExactly` says that nothing else is lost, `TrailingZeroIsLost` is a collision.

## Model

| member | source | states |
|---|---|---|
| Decimal.ReadPrinted | executor/bbc_executor.go:207-223 | reading a decimal inverts printing it, for every integer |
| Decimal.PrintIsCanonical | executor/const.go:22 | the printed text is a minus sign exactly for negative numbers and digits without a superfluous zero |
| Decimal.DigitsAreRead | executor/bbc_executor.go:207-223 | exactly the non-empty strings of digits read as a number, leading zeros included |
| Events.ParsesExactly | executor/bbc_executor.go:202-229 | three texts that read as integers, with `::` between them, parse exactly when the first is an int64 equal to the chain modulo 2^16, the second 0..127, the third a non-negative int64, whatever signs and zeros they are written with |
| Events.ParsePrinted | executor/bbc_executor.go:202-229 | for all integers, a printed `%d::%d::%d` parses back to its task exactly when dest fits int64 and agrees modulo 2^16, the channel is 0..127 and the sequence is below 2^63 |
| Events.ParsedIsTriple | executor/bbc_executor.go:202-229 | only three integers with `::` between them parse, and the task is made of exactly those |
| Events.MarkerOnlyInFront | executor/bbc_executor.go:183-237 | the task list is the marker if and only if the validator set changed, at index 0 and nowhere else, followed by the tasks of the events; all other channels are 0..127 |
| Events.EventTasksExactly | executor/bbc_executor.go:196-237 | a task is listed exactly when an attribute `IBCPackageInfo` of some event `IBCPackage` parses to it |
| Events.PrintedPackageIsFound | executor/bbc_executor.go:196-237 | every package printed into a block for this chain is found |
| Events.AttributeTasksJoin | executor/bbc_executor.go:198-235 | the tasks of an event stand in the order of its attributes |
| Events.EventTasksJoin | executor/bbc_executor.go:196-237 | the tasks of a block stand in the order of its events |
| Events.PrintedListComesBack | executor/bbc_executor.go:196-237 | any list of packages printed into an event is monitored as that list, in order |
| Executors.BbcExecutor.MonitorCrossChainPackage | executor/bbc_executor.go:169-240 | the appending loops produce the specified task list in order; the returned hash is the carried one, nil after any failure |
| Executors.BbcExecutor.AppendEvents | executor/bbc_executor.go:196-237 | the outer loop appends the tasks of all events, in order |
| Executors.BbcExecutor.AppendTasks | executor/bbc_executor.go:198-235 | the inner loop with its five ways to skip an attribute is the in-order filter-map of the attributes |
| Executors.BbcExecutor.MonitorValidatorSetChange | executor/bbc_executor.go:242-262 | reports a change exactly when the block's hash differs from a non-nil carried one or from its own next hash; nil is returned after a failure and kept when carried |
| Stores.PackageUnderKey | executor/utils.go:8-18 | the key built for a package finds exactly that package in the byte-keyed store, and nothing in the store of another pair of chains |
| Stores.CountUnderKey | executor/utils.go:27-35 | the key built for a channel finds the number of packages stored on it, in eight bytes, or nil for none |
| Executors.BbcExecutor.GetNextSequence | executor/bbc_executor.go:342-360 | the value found under the built key and decoded big-endian is the number of packages of the channel stored by block int64(height); nil is 0, an error None |
| Executors.BscExecutor.SyncTendermintLightClientHeader | executor/bsc_executor.go:202-263 | the nonce is read first, then the header in three calls, then one transaction with the encoded header of that height is submitted; any failure is reported, a lost row too |
| Delivery.CallAcceptedExactly | executor/bsc_executor.go:265-306 | for a relayer that is alone a call submits one transaction with the given nonce, accepted exactly when the sequence is the pending counter of the channel and header height + 1 is there; it then adds this payload to the channel, else nothing |
| Executors.BscExecutor.GetPackage | executor/bsc_executor.go:308-330 | queries by the built package key are queries of the named package; up to ten of them until a non-empty value, the first error ends it |
| Calls.FetchGetsOverBlanks | executor/bsc_executor.go:308-330 | after up to nine empty answers the next value is returned, with no further call |
| Calls.FetchGivesUp | executor/bsc_executor.go:308-330 | ten empty answers end the fetch without a package |
| Calls.FetchStopsAtError | executor/bsc_executor.go:314-317 | so does the first error |
| Calls.SyncStopsAtFailure | executor/bsc_executor.go:202-263 | of the five calls of a header sync the first that fails ends it, and nothing is submitted |
| Calls.SyncSubmits | executor/bsc_executor.go:202-263 | when none fails the transaction is submitted; only a row that is not saved is reported then |
| Calls.RelayCalls | executor/bsc_executor.go:332-348 | a single relay fetches first, then reads the nonce it submits with; what fails ends it |
| Calls.BatchCalls | executor/bsc_executor.go:350-376 | a batch reads the nonce before its first package |
| Calls.MonitorSeesExactly | executor/bbc_executor.go:169-181 | a block is seen exactly when both calls are answered |
| Executors.BscExecutor.RelayCrossChainPackage | executor/bsc_executor.go:332-348 | package, then nonce, then one transaction, stopping at the first failure |
| Executors.BscExecutor.BatchRelayCrossChainPackages | executor/bsc_executor.go:350-376 | the loop over [start, end) submits one package each with a nonce counted up from the one read at entry, stopping at the first failure |
| Delivery.CounterSeesPending | executor/bsc_executor.go:459-471 | the receive counter read on the pending state is the number of packages delivered plus those of this relayer under way |
| Cleanup.AccelerateExactly | relayer/cleanup.go:16-57 | however the cleanup ends, the flag is true exactly when some channel whose two counters were both read has BBC ahead by at least half the threshold; the channels read are a prefix of the list, all of it on success |
| Calls.CapExactly | relayer/cleanup.go:48-50 | a batch ends thirty above the receive counter or at the next sequence; near 2^64 the sum wraps and the batch is empty |
| Calls.CleanStopsAtFailure | relayer/cleanup.go:20-55 | what ends a cleanup at a channel, and that the client is switched only when the first read fails |
| Calls.ReadingsAreReads | relayer/cleanup.go:21-31 | every pair of counters compared was read for that channel, Binance Chain at the height of the cleanup first |
| Safety.FetchKeeps | executor/bsc_executor.go:308-330 | a package that is returned is non-empty, is the one stored under that channel and sequence, and was committed at or below the queried height |
| Safety.BatchKeeps | executor/bsc_executor.go:350-376 | whatever call fails, the submitted sequences form a prefix of [start, end), the transaction of s carries nonce n0 + (s - start) and the stored payload; success means the whole range |
| Safety.RelayKeeps | executor/bsc_executor.go:332-348 | a relayed task is attempted once and leads to at most one transaction, which carries the package stored for it |
| Safety.SyncHeaderKeeps | executor/bsc_executor.go:202-263 | a header sync submits at most its own header transaction, with the encoded header of that height, one on success, and keeps safety |
| Safety.CleanKeeps | relayer/cleanup.go:15-58 | a cleanup keeps safety under any interference, and attempts nothing but the sync of header height + 1 and its batches |
| Delivery.CleanupNeverRejected | relayer/cleanup.go:40-54 | for a lone sender, while blocks and packages come and its transactions are mined, the submissions of one cleanup run in nonce order are all accepted: header height + 1 first and once, then packages proved against it; also when the cleanup stops early. No transaction is rejected when it is mined |
| Delivery.MineOldest | executor/bsc_executor.go:194-200 | mining the oldest transaction leaves the pending state that the reads see as it is, and is not a rejection when nothing pending will be rejected |
| Relays.RoundAcceptedExactly | relayer/daemon.go:81-94 | for a lone sender with tasks in sequence, the submissions of the relaying end of a round are all accepted exactly when no task was submitted after an earlier one of its channel was not |
| Relays.StoredRoundIsAccepted | relayer/daemon.go:81-94 | without failures, with tasks in sequence whose packages are stored, the header and one package for each task are submitted and all accepted |
| SoleSender.RunNeverRejected | relayer/daemon.go:99-138 | on every run of the normal daemon of a lone sender, any calls failing, all submissions carry consecutive nonces and are accepted in that order, and none is rejected when mined |
| Delivery.BatchOrderly | executor/bsc_executor.go:350-376 | a batch from the pending counter is accepted as a whole and advances exactly that counter |
| Delivery.VisitOrderly | relayer/cleanup.go:32-55 | serving one channel is accepted, syncs the header unless it is there, and moves its counter to the capped end on success |
| Convergence.CleanupShrinksGaps | relayer/cleanup.go:32-57 | without failures, while blocks go by and transactions are mined, one cleanup succeeds and turns the gap g of every listed channel into max(0, g - 30); the total gap falls strictly until it is zero |
| Convergence.CleanupDeliversExactly | relayer/cleanup.go:48-51 | such a cleanup leaves no gap exactly when no listed channel was more than 30 packages behind |
| Convergence.CleanupsShrinkGaps | relayer/cleanup.go:48-51 | after n such cleanups every gap is max(0, g - 30 n) |
| Convergence.CleanupsDeliverEverything | relayer/cleanup.go:48-51 | ceil(maxgap / 30) such cleanups submit every stored package; once nothing is pending the contract has them all |
| Convergence.EverythingIsAccepted | relayer/cleanup.go:32-57 | from a safe world, once these cleanups are mined each listed channel has accepted exactly the stored packages, each once, in order and with its payload |
| Progress.NormalDelivers | relayer/daemon.go:105-137 | without failures and new packages, ceil(maxgap / 30) intervals of rounds of the normal daemon close every listed gap |
| Progress.CompetitionDelivers | relayer/daemon.go:38-96 | the same for the competition daemon, whose single relays never widen a gap |
| Convergence.RelayedExactly | relayer/daemon.go:88-94 | without failures and with no new packages, whatever else the chains do, a task becomes a transaction exactly when its package is stored and non-empty, the marker (channel byte 255) included |
| RelayerObject.Relayer.CleanPreviousPackages | relayer/cleanup.go:15-58 | the channel loop with its early returns yields the flag, the outcome and the chain effects of the specified cleanup; the gap subtraction never underflows |
| RelayerObject.Relayer.DeliverGap | relayer/cleanup.go:40-54 | the header is synced at most once per cleanup, then one batch capped at 30 in uint64 arithmetic |
| RelayerObject.Relayer.RelayTasks | relayer/daemon.go:88-94 | every task is tried once in order, errors notwithstanding |
| RelayerObject.Relayer.RelayerCompetitionDaemon | relayer/daemon.go:33-97 | any number of turns of the loop is that number of specified rounds |
| RelayerObject.Relayer.CompetitionStep | relayer/daemon.go:39-95 | one turn: catch up, or monitor, sync for a changed validator set, then clean, skip, retry or relay |
| RelayerObject.Relayer.RelayerDaemon | relayer/daemon.go:99-138 | any number of turns of the loop is that number of specified rounds |
| RelayerObject.Relayer.NormalStep | relayer/daemon.go:107-136 | one turn: jump when behind, monitor, sync for a changed validator set, clean when accelerating or due |
| Runs.CompetitionRecorded | relayer/daemon.go:38-96 | one round keeps safety; header sync of its own height is attempted exactly for the marker; it cleans up exactly at multiples of the interval, and is skipped exactly when the block holds no package; otherwise header height + 1 is attempted, and its tasks are relayed once in order only if that header was submitted; catching up attempts a cleanup one below the latest height |
| Runs.NormalRecorded | relayer/daemon.go:105-137 | one round keeps safety and works at the latest height exactly when behind by more than the threshold; header sync of its height is attempted exactly when flagged, and a cleanup exactly after such a jump, when accelerating, or at a multiple of the interval |
| Acceleration.FlagExactly | relayer/daemon.go:107-135 | after a round that cleaned up the flag is set exactly when some channel was at least half the threshold behind; without a cleanup it is not set, after a failed read it stays or is set by a jump |
| Acceleration.FlagIsFollowed | relayer/daemon.go:124-128 | a round that starts with the flag and reads its block cleans up at its height |
| Coverage.EveryRunDeliversInOrder | relayer/daemon.go:33-138 | on every run of either daemon from a safe world, with any calls failing and any interference, each channel accepted exactly 0..k-1 in order with the stored payloads and k at most the stored count; everything sent is a non-empty stored package committed below its proof height |
| Coverage.MarkerIsNeverSent | relayer/daemon.go:88-94 | with nothing stored on channel byte 255 the marker never becomes a transaction, on any run |
| Coverage.CompetitionCovers | relayer/daemon.go:38-96 | while height queries succeed and nothing wraps, the height never falls, and every height passed was read with each of its packages attempted exactly once in order, or is at most the height of an attempted cleanup |
| Printed.StoredPackageIsCovered | relayer/daemon.go:38-96 | on such runs a stored package of a height passed, printed in its block, was attempted as often as the block prints it, at least once, or lies at most at the height of an attempted cleanup |
| Coverage.HeightFallsExactly | relayer/daemon.go:24-47 | a failed height query reads as 0; the height falls exactly when the latest height reads as 0 and the wrapped value exceeds the threshold; it then becomes 0 after a cleanup at the largest height |
| Coverage.NormalWindow | relayer/daemon.go:105-137 | failed height queries included, the height never falls, and unless a cleanup is pending it is at most one interval above the latest cleanup or the start |
| Coverage.JumpIsCleaned | relayer/daemon.go:107-135 | a fall-behind jump attempts a cleanup at the new height in the same round or leaves one pending |
| Coverage.CompetitionStartsCleaning | relayer/relayer.go:32-37 | competition mode starts with a cleanup at its start height |
| Coverage.NormalStartsAtTip | relayer/daemon.go:102-104 | normal mode starts at the latest block, or at 0 when the query fails, not accelerating |
| HashTracking.DaemonsNoticeChanges | relayer/daemon.go:49-124 | in every round of every run of both daemons, a sync of the header of the block read is attempted exactly where the hash differs from the previous block read or from its own next hash, until the first failed read; afterwards never, and the carried hash stays nil |
| DoubleSign.DoubleSignMonitor.DoubleSignChecker | relayer/double_sign_monitor.go:70-122 | an arrival is checked against the caches of all channels in order before it enters its own; nil headers change nothing |
| DoubleSign.DoubleSignMonitor.Remember | relayer/double_sign_monitor.go:109-121 | a full list loses its oldest number and the map that number, then the header is entered |
| DoubleSign.CacheInvariant | relayer/double_sign_monitor.go:110-121 | after any arrivals, repeats included, the list is the window of the last 100 numbers and the map holds a number exactly when it was not pushed out after its latest arrival, with that latest header |
| DoubleSign.CacheIsBounded | relayer/double_sign_monitor.go:110-121 | the list has at most 100 numbers and every map key stands in it |
| DoubleSign.DistinctCacheIsWindow | relayer/double_sign_monitor.go:110-121 | with distinct numbers the cache is exactly the last min(100, n) headers |
| Interleavings.Monitor | relayer/double_sign_monitor.go:156-164 | feeding a trace of arrivals one by one leaves the specified caches and submissions |
| Interleavings.CachesAreIndependent | relayer/double_sign_monitor.go:110-121 | in any interleaving a channel's cache depends on its own headers only |
| Interleavings.ChecksInOrder | relayer/double_sign_monitor.go:78-107 | the caches of all channels are checked in order, each giving its header of that number if one signer signed both with different parents and signatures |
| Interleavings.SubmittedExactly | relayer/double_sign_monitor.go:78-107 | when a header arrives, evidence is submitted exactly for the live headers of any channel that conflict with it |
| Interleavings.ConflictIsSubmitted | relayer/double_sign_monitor.go:78-121 | two conflicting headers, whichever first, are submitted when the second arrives if at most 99 further headers reached the first one's channel |
| Interleavings.LiveForNinetyNine | relayer/double_sign_monitor.go:110-119 | with distinct numbers a header is live exactly while at most 99 further ones arrived |
| Interleavings.HundredForgets | relayer/double_sign_monitor.go:110-119 | after 100 further headers its number is gone from the map |
| Interleavings.SubmittedIsReal | relayer/double_sign_monitor.go:78-107 | everything submitted names two conflicting headers that arrived, the cached one earlier |
| Interleavings.DuplicateIsForgotten | relayer/double_sign_monitor.go:110-121 | a repeated number can stand in the list while its header is gone |
| Interleavings.KeysAreTheListExactly | relayer/double_sign_monitor.go:110-121 | keys and list agree exactly when no number was pushed out after it arrived again |
| Tracker.TxTracker.Track | relayer/daemon.go:147-249 | any number of turns of the loop, with the executor saving rows before each, is that number of specified rounds |
| Tracker.TxTracker.SaveRelayTx | executor/bsc_executor.go:481-496 | with a database, a row is inserted exactly when the write succeeds, which is what is returned |
| Tracker.TxTracker.Round | relayer/daemon.go:147-248 | one turn of the tracker, with any query result, receipts, lost writes and rows created while a listed one is handled, is the specified round |
| Tracker.TxTracker.MarkAllMissed | relayer/daemon.go:161-171 | every listed row whose write succeeds becomes Missed |
| Rows.MissedExactly | relayer/daemon.go:161-171 | every listed row whose write succeeds becomes Missed and no other row changes |
| Rows.ConfirmedExactly | relayer/daemon.go:174-213 | every listed row with a receipt whose write succeeds becomes Success or Failed with the gas, the fee modulo 2^64 and the height of the receipt, and no other row changes |
| Rows.RoundExactly | relayer/daemon.go:147-213 | when a round gives its list up, and what becomes of every row in it, rows inserted before and meanwhile included |
| Rows.StatisticsExactly | relayer/daemon.go:215-245 | the first statistics row is replaced if it was read, one is added if none was, nothing happens when the write fails or the list is given up |
| Tracker.TxTracker.Count | relayer/daemon.go:180-201 | the field updates for one receipt, int64 counters and decimal fee texts |
| Rows.CountedExactly | relayer/daemon.go:180-201 | what one receipt adds to each counter and each fee |
| Accounting.AlwaysConserved | relayer/daemon.go:180-245 | in every reachable state, with rows created at any time and any reads and writes failing, total = success + failed = headers + packages, and the fees add up, an empty text being 0 |
| Accounting.StatisticsAreFolds | relayer/daemon.go:147-249 | from an empty database with reads and writes succeeding and rows created at any time, before a query or while a row is handled, every figure is the fold over the table after every round; Missed rows count nowhere |
| Accounting.FirstTransactionIsCounted | relayer/daemon.go:147-249 | such a run from the empty database in which a row is created, listed, confirmed and counted |
| Accounting.TerminalStays | relayer/daemon.go:161-213 | a row that is Success, Failed or Missed after some rounds never changes in any later one, rows being created at any time |
| Accounting.TotalRightExactly | relayer/daemon.go:147-245 | whatever reads and writes fail, a round keeps the total right exactly when the guard for giving the list up holds, or the updates of the rows with a receipt are all written if the statistics row is saved and none if it is not |
| Accounting.LostRowMiscounts | relayer/daemon.go:174-213 | a lost row update makes the total wrong |
| Accounting.LostStatisticMiscounts | relayer/daemon.go:229-245 | a statistics row that is not written makes the total wrong |
| Accounting.UnreadStatisticMiscounts | relayer/daemon.go:149-245 | a statistics row that is not read is duplicated and the total wrong |
| Bytewise.BigEndianRoundTrip | executor/bbc_executor.go:355-358 | decoding inverts the fixed-width big-endian encoding |
| Bytewise.LessIsNumeric | executor/utils.go:12-15 | on encodings of one width byte order is numeric order |
| Keys.BuildCrossChainPackageKey | executor/utils.go:8-18 | the in-place writes fill the 14 bytes with the specified key |
| Keys.BuildChannelSequenceKey | executor/utils.go:27-35 | the in-place writes fill the 4 bytes with the specified key |
| Keys.PackageKeysKeepOrder | executor/utils.go:8-18 | byte order of package keys is lexicographic order of source, destination, channel byte and sequence |
| Keys.PackageKeysAreInjective | executor/utils.go:8-18 | different packages have different keys |
| Keys.SequenceKeysAreApart | executor/utils.go:27-35 | sequence keys are injective and none equals or begins a package key |
| Keys.DecodedSequence | executor/bbc_executor.go:355-358 | the counter read back is the one that was encoded |
| ConsensusStates.EncodeConsensusState | common/types.go:26-66 | the writes stay inside the buffer and fill it with the documented layout, or the first failing check is reported |
| ConsensusStates.SizeCheckExactly | common/types.go:27-31 | the length arithmetic does not wrap, and the check passes exactly for at most 99 validators |
| ConsensusStates.EncodeFailsExactly | common/types.go:27-56 | which of the three checks fails first |
| ConsensusStates.EncodingRoundTrip | common/types.go:23-66 | decoding by the documented layout recovers every state with a chain ID of at most 32 bytes without trailing NUL, 32-byte hashes and any int64 powers |
| ConsensusStates.EncodingIsInjective | common/types.go:23-66 | different such states have different encodings |
| ConsensusStates.EncodingCollidesExactly | common/types.go:36-49 | on all states, two encodings agree exactly when the states agree up to trailing NULs and the cut or padded hashes |
| Endpoints.EndpointPool.SwitchClient | executor/bbc_executor.go:112-120 | the index advances by one and wraps at the end; it stays in range |
| Endpoints.EndpointPool.UpdateClients | executor/bbc_executor.go:130-163 | heights are taken from the clients that answer, and the index moves to the first highest client exactly when the current one is behind |
| Endpoints.DecisionExactly | executor/bbc_executor.go:147-160 | a round switches exactly when some height exceeds the current one by more than 5, the current one is below -5, or the sum overflows; it takes the first client of the greatest height, or client 0 when no height is positive |
| Endpoints.CloseClientIsKept | executor/bbc_executor.go:156 | a client 3 or 5 behind is kept, one 6 behind is left for the first of the best |
| Endpoints.RoundChoosesWell | executor/bsc_executor.go:163-176 | without a switch in between, the chosen client's height is within 5 of every other unless it is negative |
| Endpoints.IndexStaysInRange | executor/bsc_executor.go:118-176 | however health rounds, the two statements of a switch and callers interleave under the mutex: between steps the index is in range, or one above the index the switch under way started from; accesses under the mutex are in range, and the unlocked read of a health round is out of range if and only if a switch from the last endpoint is under way |
| Endpoints.CrashesExactly | executor/bbc_executor.go:112-160 | a schedule reads out of range exactly when it contains such a read |
| Endpoints.OneEndpointCrashes | executor/bbc_executor.go:112-158 | with one endpoint a health round between increment and wrap reads out of range |
| Endpoints.SwitchesVisitEach | executor/bsc_executor.go:124-132 | n consecutive switches visit each of n endpoints once and return to the start |
| Instances.ThirtyFirstIsLeft | relayer/cleanup.go:48-50 | of 31 stored packages a cleanup without failures leaves one |
| Instances.ThirtyInOneRound | relayer/daemon.go:107-136 | a run that meets the hypotheses of convergence: one round submits thirty packages |
| Instances.FiftyBehindAccelerates | relayer/cleanup.go:33-35 | with a threshold of 100 a cleanup sets the flag exactly from 50 undelivered packages on |
| Instances.FailedQueryDropsHeight | relayer/daemon.go:24-47 | a failed height query sets the height 5 to 0 |
| Instances.MarkerRound | relayer/daemon.go:88-94 | a round in which the header-sync marker becomes a package transaction |
| Instances.SecondRelayIsRejected | relayer/daemon.go:88-94 | of two packages in sequence only the second is submitted, and the contract does not accept it |
| Instances.ChangeGoesUnnoticed | relayer/daemon.go:111-124 | after a failed read a block with a new validator set is read and no header sync attempted |
| Instances.TrailingZeroIsLost | common/types.go:36-49 | two different states with one encoding |

## Left out

- Contract bindings, RPC, gorm, Telegram, AWS secrets, the admin server, logging and key handling: I/O, replaced by verdicts and by values.
- Hashes, signatures, signer extraction, Merkle proofs, amino and `Header.Validate`: fields of the data, uninterpreted, or not modelled.
- Executors.BscExecutor.SyncTendermintLightClientHeader: does not model the `goto tryAgain` loop; the header is queried once and found or not in the end, since termination depends on the remote chain. The encoding of a header is an uninterpreted function of its height.
- Executors.BscExecutor.GetPackage: does not model the proof bytes; Merkle proofs are cryptography, and a proof is represented by the height it is proved at.
- Heights 0 and below: a node answers height 0 with its latest state and refuses negative heights; the model answers a query there like one at any other height, from what was stored by that block, so it finds nothing below block 0.
- Sleeps and time: the tracker query may list any distinct Created rows. `Order` and `Limit` stand after `Find` and have no effect.
- The conversion int64(nonce): nonces are kept as uint64 values.
- Endpoint switches inside a cleanup and inside the tracker: the first is counted in the world, the second not recorded; what a switch does is modelled in `Endpoints`.
- A relayer without a database: it saves and tracks nothing.
- Fee texts that are not integers: the relayer writes only integers, any other text is read as 0.
- Config validation: the endpoint lists are non-empty and both cleanup intervals non-zero; the competition interval is not validated by the source, which would divide by zero.
- `calculateNextDeliverSeqFromDB`, rewards, registration, balance alerts and the subscriptions of the monitor.
