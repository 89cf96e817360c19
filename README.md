# RLN v1 → v2 membership migration, modelled in Dafny

The repository deploys the Waku RLN contracts and ships one script,
`scripts/migrate/v1-v2.ts`, which moves every identity commitment registered
on the RLN v1 storage contract to the RLN v2 registry. The script

1. reads the v1 registry address, the v1 storage index and the v2 registry
   address from the environment, throwing when one is unset or empty;
2. asks the v1 registry for the storage at that index, reads the storage's
   deployment block and the chain's current block, and throws when the
   current block number is falsy;
3. scans the blocks from the deployment block to the current block in windows
   of 10,000 blocks, each passed to `queryFilter` as `(i, min(current, i + 10000))`,
   so that consecutive windows share an endpoint, and appends the
   `idCommitment` of every `MemberRegistered` event to one list;
4. cuts that list into consecutive batches of at most 10 and sends one
   `register(batch, limits)` transaction per batch, with `limits` an array of
   ones as long as the batch, waiting for each transaction to be confirmed
   before building the next batch.

The model follows the script's own shape: the two loops are Dafny methods
with `while` loops (`CommitmentScan.GetRlnV1Commitments`, with its inner
event loop `CommitmentScan.AppendIds`, and
`RegisterBatches.RegisterRlnV2Commitments`; the window loop is
`CommitmentScan.QueryWindows`, called by `GetRlnV1Commitments` once the two
chain reads have succeeded), each proved against a
specification function (`BlockWindows.Windows`, `CommitmentScan.Collected`,
`RegisterBatches.Plan`) whose properties are proved as lemmas. `main` is
`Migration.Migrate`, which returns the ordered trace of every request the
script makes to the chain, except the two reads of `getRlnV2Storage`, whose
result `main` only logs.

The chain is a set of parameters:

- `queryFilter` of the v1 storage is an `EventSource`, a function from the
  `(from, to)` pair to the events returned, or `None` when the query throws;
- `register` on the v2 registry is a `Registrar`, a function from the calls
  of this run already confirmed and the next call to whether that call is
  sent and confirmed (so each call is judged after the previous ones
  completed, as `await tx.wait()` orders them);
- v1 `storages(index)` is a function from a registry address and an index
  to a `V1Storage`, which carries the outcome of its `deployedBlockNumber()`
  read (`None` when the read is rejected) and its event source;
- `getBlockNumber()` is `blockNumber`, the block number read or `None` when
  the read is rejected;
- `process.env` is a map from variable names to strings.

Thrown exceptions become `Err` values of `MigrationError`; the labels
`QueryFailed(window)` and `RegisterFailed(batch)` name where the run stopped.

The module `EventLog` goes one step beyond the script: it describes the
storage's history as an ordered log of events tagged with block numbers and
shows what the chunked scan returns for two readings of a window's bounds.
Read as half-open spans `[from, to)`, the chunked scan returns exactly what
one query over `[deployed, current)` returns (`ChunkedScanIsLossless`).
Read as closed spans `[from, to]`, the block shared by two consecutive
windows is queried twice, and an event in it is collected twice
(`SharedEndpointCollectedTwice`). Which reading applies is decided by the
chain client library, which is not part of this model.

## Model

| member | source | states |
|---|---|---|
| `Config.Require` | scripts/migrate/v1-v2.ts:12-14 | a required variable is read successfully exactly when it is set and non-empty, and otherwise fails naming that variable |
| `Config.GetRlnV1Registry` | scripts/migrate/v1-v2.ts:12-14 | the v1 registry address is the value of `WAKU_RLNV1_REGISTRY_ADDRESS`; an unset or empty variable is an error naming it |
| `Config.GetRlnV1Storage` | scripts/migrate/v1-v2.ts:25-29 | an unset or empty `WAKU_RLNV1_STORAGE_INDEX` is an error; otherwise the storage is the one the v1 registry returns for that index |
| `Config.GetRlnV2Registry` | scripts/migrate/v1-v2.ts:48-52 | the v2 registry address is the value of `WAKU_RLNV2_REGISTRY_ADDRESS`; an unset or empty variable is an error naming it |
| `RlnTypes.Ids` | scripts/migrate/v1-v2.ts:97-99 | the commitments taken from a response are the events' `idCommitment`s, one per event, in event order |
| `BlockWindows.WindowAt` | scripts/migrate/v1-v2.ts:86-90 | window k starts at `deployed + 10000 * k`, lies before the current block, and is closed at `min(current, from + 10000)` |
| `BlockWindows.WindowCount` | scripts/migrate/v1-v2.ts:89 | there are ceil((current − deployed) / 10000) windows, and none when `deployed >= current` |
| `BlockWindows.WindowBounds` | scripts/migrate/v1-v2.ts:89-90 | the first window starts at the deployment block; every window is non-empty, ends no later than the current block and spans at most 10,000 blocks |
| `BlockWindows.WindowsChained` | scripts/migrate/v1-v2.ts:89-90 | each later window starts 10,000 blocks after the previous start, exactly at the previous window's upper bound |
| `BlockWindows.LastWindowEndsAtCurrent` | scripts/migrate/v1-v2.ts:89-90 | for a non-empty range the last window's upper bound is the current block |
| `BlockWindows.WindowsCover` | scripts/migrate/v1-v2.ts:89-90 | every block from the deployment block up to (not including) the current block lies in some window read as `[from, to)` |
| `BlockWindows.ThreeWindowsScenario` | scripts/migrate/v1-v2.ts:86-90 | deployment block 0 and current block 25,000 give exactly the windows (0, 10000), (10000, 20000), (20000, 25000) |
| `CommitmentScan.CollectedAppend` | scripts/migrate/v1-v2.ts:88-100 | scanning two runs of windows yields the first run's commitments followed by the second's; nothing is dropped or reordered |
| `CommitmentScan.CollectedSingle` | scripts/migrate/v1-v2.ts:92-99 | a single window contributes exactly the ids of the events returned for it |
| `CommitmentScan.CollectedSomeIffAnswered` | scripts/migrate/v1-v2.ts:92-96 | the scan yields a list exactly when every window's query succeeds |
| `CommitmentScan.FailureIsFinal` | scripts/migrate/v1-v2.ts:92-96 | once one query has failed, no later window can make the scan succeed |
| `CommitmentScan.AppendIds` | scripts/migrate/v1-v2.ts:97-99 | the inner loop appends the ids of the response's events, in order, to the list collected so far |
| `CommitmentScan.ScanStep` | scripts/migrate/v1-v2.ts:89-99 | one loop iteration queries the next window of the plan; if that query throws the whole scan cannot succeed, otherwise the list grows by exactly that window's ids |
| `CommitmentScan.QueryWindows` | scripts/migrate/v1-v2.ts:86-102 | the queried pairs are, in order, a prefix of the windows; the loop succeeds exactly when every window's query succeeds, and then it queried all windows and returns their collected commitments; on failure the last pair is the one whose query threw and all earlier ones succeeded |
| `CommitmentScan.GetRlnV1Commitments` | scripts/migrate/v1-v2.ts:72-103 | a rejected `deployedBlockNumber()` or `getBlockNumber()` read, or a zero block number, fails with its own error before any query; otherwise it behaves as the window loop over `[deployed, current)` |
| `EventLog.InRangeSplit` | scripts/migrate/v1-v2.ts:89-96 | in a block-ordered log, the events of `[a, b)` are those of `[a, m)` followed by those of `[m, b)` |
| `EventLog.ChunkedScanIsLossless` | scripts/migrate/v1-v2.ts:86-102 | if a window is read as `[from, to)`, the chunked scan returns each event of `[deployed, current)` once, in chain order, as one query over the range would |
| `EventLog.SharedBlockReturnedTwice` | scripts/migrate/v1-v2.ts:89-96 | if a window is read as `[from, to]`, an event in any shared block `deployed + 10000 * k` (k >= 1) is returned both by the query for window k - 1 and by the query for window k |
| `EventLog.SharedEndpointCollectedTwice` | scripts/migrate/v1-v2.ts:89-96 | if a window is read as `[from, to]`, an event in block 10,000 is collected twice by a scan from block 0 to 20,000, though one query over the range returns it once |
| `RegisterBatches.PlanCount` | scripts/migrate/v1-v2.ts:111-113 | the number of batches is ceil(total / 10): enough for every commitment and not one more, and zero for an empty list |
| `RegisterBatches.PlanShape` | scripts/migrate/v1-v2.ts:110-116 | no batch is empty, every batch but the last holds 10 commitments, and every limits array has its batch's length and holds only 1 |
| `RegisterBatches.PlanUnfold` | scripts/migrate/v1-v2.ts:113-115 | the batches of a list are its first `min(total, 10)` commitments followed by the batches of the rest |
| `RegisterBatches.PlanRegistersAll` | scripts/migrate/v1-v2.ts:113-115 | concatenating the batches reproduces the commitment list exactly |
| `RegisterBatches.TwentyThreeCommitmentsScenario` | scripts/migrate/v1-v2.ts:111-115 | 23 commitments are sent as batches of 10, 10 and 3, in list order |
| `RegisterBatches.RegisterRlnV2Commitments` | scripts/migrate/v1-v2.ts:105-123 | the calls sent are, in order, a prefix of the batch plan; the run succeeds exactly when every planned call is confirmed, and then every batch was sent; on failure the last call sent is the first one not confirmed and every earlier one was |
| `Migration.Migrate` | scripts/migrate/v1-v2.ts:130-150 | configuration errors are reported in `main`'s order before any chain request; a rejected block read or a zero block number stops the run before any event query; once the scan starts, the run fails only at a query (the last one in the trace, every earlier one answered, nothing registered) or at a registration (after every window was queried, the calls a prefix of the batch plan ending at the first one not confirmed); it succeeds exactly when every query succeeds and every batch is confirmed, and then registers every collected commitment and reports their number; a storage deployed at or after the current block migrates 0 commitments with no query |

## Left out

- The deployment scripts under `deploy/` (registry, v1 and v2 contracts, proxies, `upgradeTo`/`initialize`): declarative framework wiring whose effect lies in code outside this repository.
- `getRlnV2Storage` and its two v2 chain reads (`usingStorageIndex()`, `storages()`): `main` uses the result only in a log line; these reads are not in the trace and their failure is not modelled.
- A rejected v1 `storages(index)` read: the lookup always yields a storage (whose own `deployedBlockNumber()` read may still be rejected).
- Contract construction from ABI strings, providers and signers: the addresses read from the environment select the oracle (`storages`, `registrars`) and nothing else.
- The conversion of the `WAKU_RLNV1_STORAGE_INDEX` string into a `uint16` by the chain client, and a lookup for an index that has no storage: `storages` returns a storage for every index.
- The inclusiveness of `queryFilter`'s bounds: the core treats the event source as an arbitrary oracle over the script's `(from, to)` pairs; `EventLog` only contrasts the two readings.
- Events whose decoded arguments are missing (`event.args?.idCommitment` would push `undefined`): every event carries its commitment.
- `getBlockNumber` values that are falsy for reasons other than 0 (such as `NaN`): a successful read yields a natural number.
- `BigNumber` arithmetic and the uint256/uint32 widths: commitments and block numbers are unbounded naturals, and the script does no arithmetic on commitments.
- Asynchrony, `console.log` progress output, `process.exitCode` and the Poseidon hashing mentioned only in comments.
- The comments saying "batches of 20" disagree with the code, which uses batches of 10; the model uses 10.
