/** `registerRlnV2Commitments`: cuts the collected commitments into
    consecutive batches of at most 10, pairs each batch with a limits array of
    the same length filled with the default message limit 1, and sends one
    `register(batch, limits)` transaction per batch, waiting for each to be
    confirmed before building the next. */
module RegisterBatches {
  import opened Wrappers
  import opened RlnTypes

  /** `batch` of the registration loop. */
  const RegisterBatchSize: nat := 10

  /** `limit`: the per-identity message limit given to every migrated commitment. */
  const DefaultLimit: nat := 1

  /** The number of batches for `total` commitments. */
  function BatchCount(total: nat): nat
  {
    (total + RegisterBatchSize - 1) / RegisterBatchSize
  }

  /** Batch k: `commitments.slice(10 * k, min(total, 10 * k + 10))`. */
  function Batch(commitments: seq<Commitment>, k: nat): seq<Commitment>
    requires k < BatchCount(|commitments|)
  {
    commitments[k * RegisterBatchSize .. Min(|commitments|, k * RegisterBatchSize + RegisterBatchSize)]
  }

  /** `Array(n).fill(limit)`. */
  function Limits(n: nat): seq<nat>
  {
    seq(n, _ => DefaultLimit)
  }

  /** The call sent for one batch. */
  function CallFor(batch: seq<Commitment>): RegisterCall
  {
    RegisterCall(batch, Limits(|batch|))
  }

  /** The calls the loop sends when every one of them is confirmed, in order. */
  function Plan(commitments: seq<Commitment>): seq<RegisterCall>
  {
    seq(BatchCount(|commitments|), k requires 0 <= k < BatchCount(|commitments|) => CallFor(Batch(commitments, k)))
  }

  /** The commitments carried by `calls`, call after call. */
  function Registered(calls: seq<RegisterCall>): seq<Commitment>
  {
    if calls == [] then [] else calls[0].commitments + Registered(calls[1..])
  }

  /** The registrar confirmed each of `calls`, given the ones before it. */
  predicate AllConfirmed(registrar: Registrar, calls: seq<RegisterCall>)
  {
    forall k :: 0 <= k < |calls| ==> registrar(calls[..k], calls[k])
  }

  /** ceil(total / 10) batches: enough to hold every commitment, and not one more. */
  lemma PlanCount(commitments: seq<Commitment>)
    ensures |Plan(commitments)| * RegisterBatchSize >= |commitments|
    ensures |Plan(commitments)| > 0 ==> (|Plan(commitments)| - 1) * RegisterBatchSize < |commitments|
    ensures Plan(commitments) == [] <==> commitments == []
  {
  }

  /** Every batch is non-empty, every batch but the last holds exactly 10
      commitments, and each limits array matches its batch in length and is
      all ones. */
  lemma PlanShape(commitments: seq<Commitment>)
    ensures forall k :: 0 <= k < |Plan(commitments)| ==>
      0 < |Plan(commitments)[k].commitments| <= RegisterBatchSize &&
      (k < |Plan(commitments)| - 1 ==> |Plan(commitments)[k].commitments| == RegisterBatchSize) &&
      |Plan(commitments)[k].limits| == |Plan(commitments)[k].commitments| &&
      (forall j :: 0 <= j < |Plan(commitments)[k].limits| ==> Plan(commitments)[k].limits[j] == DefaultLimit)
  {
  }

  /** The plan of a list is its first batch followed by the plan of the rest. */
  lemma PlanUnfold(commitments: seq<Commitment>)
    requires commitments != []
    ensures Plan(commitments)
         == [CallFor(commitments[..Min(|commitments|, RegisterBatchSize)])]
          + Plan(commitments[Min(|commitments|, RegisterBatchSize)..])
  {
    var n := Min(|commitments|, RegisterBatchSize);
    var rest := commitments[n..];
    var p, q := Plan(commitments), Plan(rest);
    assert |p| == |q| + 1;
    forall k | 0 <= k < |q| ensures p[k + 1] == q[k] {
      assert Batch(commitments, k + 1) == Batch(rest, k);
    }
    assert p == [p[0]] + q;
  }

  /** Concatenating the batches reproduces the commitment list exactly. */
  lemma {:induction false} PlanRegistersAll(commitments: seq<Commitment>)
    ensures Registered(Plan(commitments)) == commitments
    decreases |commitments|
  {
    if commitments != [] {
      var n := Min(|commitments|, RegisterBatchSize);
      PlanUnfold(commitments);
      var p := Plan(commitments);
      assert p[1..] == Plan(commitments[n..]);
      PlanRegistersAll(commitments[n..]);
      assert commitments[..n] + commitments[n..] == commitments;
    }
  }

  /** 23 commitments are sent as batches of 10, 10 and 3, in that order. */
  lemma TwentyThreeCommitmentsScenario(commitments: seq<Commitment>)
    requires |commitments| == 23
    ensures |Plan(commitments)| == 3
    ensures Plan(commitments)[0].commitments == commitments[..10]
    ensures Plan(commitments)[1].commitments == commitments[10..20]
    ensures Plan(commitments)[2].commitments == commitments[20..]
  {
  }

  /** `registerRlnV2Commitments`: `submitted` lists the calls sent, in order;
      the last one is the one that failed when `r` is an error. */
  method RegisterRlnV2Commitments(registrar: Registrar, commitments: seq<Commitment>)
    returns (submitted: seq<RegisterCall>, r: Result<(), MigrationError>)
    ensures submitted <= Plan(commitments)
    ensures r.Ok? <==> AllConfirmed(registrar, Plan(commitments))
    ensures r.Ok? ==> submitted == Plan(commitments)
    ensures r.Err? ==>
      submitted != [] &&
      AllConfirmed(registrar, submitted[..|submitted| - 1]) &&
      !registrar(submitted[..|submitted| - 1], submitted[|submitted| - 1]) &&
      r.error == RegisterFailed(|submitted| - 1)
  {
    var total := |commitments|;
    ghost var plan := Plan(commitments);
    submitted := [];
    var i := 0;
    while i < total
      invariant i == RegisterBatchSize * |submitted| && i <= total + RegisterBatchSize - 1
      invariant submitted == plan[..|submitted|]
      invariant AllConfirmed(registrar, submitted)
      decreases total - i
    {
      var normalizedBatch := Min(total, i + RegisterBatchSize);
      var commitmentsBatch := commitments[i..normalizedBatch];
      var limits := seq(|commitmentsBatch|, _ => DefaultLimit);
      var call := RegisterCall(commitmentsBatch, limits);
      assert call == plan[|submitted|];
      var confirmed := registrar(submitted, call);
      ghost var before := submitted;
      submitted := submitted + [call];
      assert submitted == plan[..|submitted|];
      assert submitted[..|submitted| - 1] == before;
      if !confirmed {
        assert !AllConfirmed(registrar, plan) by {
          assert plan[..|before|] == before;
        }
        return submitted, Err(RegisterFailed(|submitted| - 1));
      }
      assert forall k :: 0 <= k < |before| ==> submitted[..k] == before[..k];
      i := i + RegisterBatchSize;
    }
    assert submitted == plan;
    r := Ok(());
  }
}
