/** The entities the migration script handles: identity commitments read from
    the RLN v1 storage contract, the block windows it scans, the calls it sends
    to the RLN v2 registry, and the errors it raises. */
module RlnTypes {
  import opened Wrappers

  /** An identity commitment (a uint256 on chain), treated as an opaque number. */
  type Commitment = nat

  /** The `MemberRegistered(idCommitment, index)` event of the v1 storage contract. */
  datatype MemberRegistered = MemberRegistered(idCommitment: Commitment, index: nat)

  /** The `(fromBlock, toBlock)` pair handed to one `queryFilter` call. */
  datatype Window = Window(from: nat, to: nat)

  /** One `register(commitments, limits)` transaction sent to the v2 registry. */
  datatype RegisterCall = RegisterCall(commitments: seq<Commitment>, limits: seq<nat>)

  /** The errors the script throws; each names the point at which it stopped. */
  datatype MigrationError =
    | MissingEnv(name: string)     // a required environment variable is unset or empty
    | DeployedBlockReadFailed      // the `deployedBlockNumber()` read was rejected
    | BlockNumberReadFailed        // the `getBlockNumber()` read was rejected
    | NoCurrentBlock               // `getBlockNumber()` gave a falsy value
    | QueryFailed(window: Window)  // the event query for this window threw
    | RegisterFailed(batch: nat)   // sending or confirming this batch threw

  /** `queryFilter("MemberRegistered", from, to)` of one storage contract:
      the events it returns, or None when the query throws. */
  type EventSource = (nat, nat) -> Option<seq<MemberRegistered>>

  /** The v2 registry's reaction to `register`: given the calls of this run
      already confirmed and the next one, whether it is sent and confirmed. */
  type Registrar = (seq<RegisterCall>, RegisterCall) -> bool

  /** The v1 storage contract as the script sees it: its `deployedBlockNumber()`
      read (None when the read is rejected) and its event history. */
  datatype V1Storage = V1Storage(deployedBlockNumber: Option<nat>, events: EventSource)

  /** `Math.min` on block numbers and list positions. */
  function Min(a: nat, b: nat): (m: nat)
    ensures m <= a && m <= b && (m == a || m == b)
  {
    if a < b then a else b
  }

  /** The `idCommitment` of each event, in event order. */
  function Ids(events: seq<MemberRegistered>): (ids: seq<Commitment>)
    ensures |ids| == |events|
    ensures forall i :: 0 <= i < |events| ==> ids[i] == events[i].idCommitment
  {
    if events == [] then []
    else Ids(events[..|events| - 1]) + [events[|events| - 1].idCommitment]
  }

  lemma IdsAppend(a: seq<MemberRegistered>, b: seq<MemberRegistered>)
    ensures Ids(a + b) == Ids(a) + Ids(b)
  {
  }
}
