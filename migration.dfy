/** `main` of the migration script: resolve the v1 and v2 registries from the
    environment, look up the v1 storage, scan its events, and register the
    commitments on v2. The trace records, in order, every request the script
    makes to the chain except the two reads of `getRlnV2Storage`, whose
    result `main` only logs. */
module Migration {
  import opened Wrappers
  import opened RlnTypes
  import opened Config
  import opened BlockWindows
  import opened CommitmentScan
  import opened RegisterBatches

  /** A request to the chain. */
  datatype Interaction =
    | LookupStorage(registry: string, index: string)  // v1 `storages(index)`
    | ReadDeployedBlock                               // v1 storage `deployedBlockNumber()`
    | ReadBlockNumber                                 // `provider.getBlockNumber()`
    | Query(window: Window)                           // `queryFilter("MemberRegistered", from, to)`
    | Register(call: RegisterCall)                    // v2 `register(commitments, limits)`

  function Queries(ws: seq<Window>): (t: seq<Interaction>)
    ensures |t| == |ws| && forall k :: 0 <= k < |ws| ==> t[k] == Query(ws[k])
  {
    seq(|ws|, k requires 0 <= k < |ws| => Query(ws[k]))
  }

  function Registers(calls: seq<RegisterCall>): (t: seq<Interaction>)
    ensures |t| == |calls| && forall k :: 0 <= k < |calls| ==> t[k] == Register(calls[k])
  {
    seq(|calls|, k requires 0 <= k < |calls| => Register(calls[k]))
  }

  /** All three environment variables are set. */
  predicate Configured(env: Env)
  {
    IsSet(env, V1RegistryAddressVar) && IsSet(env, V2RegistryAddressVar) && IsSet(env, V1StorageIndexVar)
  }

  /** The v1 storage the configuration names. */
  function SourceStorage(env: Env, storages: (string, string) -> V1Storage): V1Storage
    requires Configured(env)
  {
    storages(env[V1RegistryAddressVar], env[V1StorageIndexVar])
  }

  /** The requests made before the first event query of a configured run
      whose reads succeed. */
  function Reads(env: Env): seq<Interaction>
    requires Configured(env)
  {
    [LookupStorage(env[V1RegistryAddressVar], env[V1StorageIndexVar]), ReadDeployedBlock, ReadBlockNumber]
  }

  /** The run stopped because the query for the last window of `queried`
      threw, after every earlier window's query succeeded. */
  predicate StoppedAtQuery(storage: V1Storage, blockNumber: Option<nat>, queried: seq<Window>, e: MigrationError)
  {
    Scannable(storage, blockNumber) &&
    queried <= ScanWindows(storage, blockNumber) && queried != [] &&
    Collected(queried[..|queried| - 1], storage.events).Some? &&
    storage.events(queried[|queried| - 1].from, queried[|queried| - 1].to).None? &&
    e == QueryFailed(queried[|queried| - 1])
  }

  /** The run stopped because the last call of `sent`, the first one not
      confirmed, threw; the calls before it follow the batch plan and were
      all confirmed. */
  predicate StoppedAtRegister(registrar: Registrar, collected: seq<Commitment>, sent: seq<RegisterCall>, e: MigrationError)
  {
    sent <= Plan(collected) && sent != [] &&
    AllConfirmed(registrar, sent[..|sent| - 1]) &&
    !registrar(sent[..|sent| - 1], sent[|sent| - 1]) &&
    e == RegisterFailed(|sent| - 1)
  }

  /** `main`. `storages` resolves v1 `storages(index)` at a registry address to
      the storage contract found there, `registrars` gives the v2 registry at an
      address, and `blockNumber` is the outcome of `getBlockNumber()` (None
      when the read is rejected). On success the result is the number of
      commitments migrated. */
  method Migrate(env: Env, storages: (string, string) -> V1Storage, blockNumber: Option<nat>,
                 registrars: string -> Registrar)
    returns (trace: seq<Interaction>, r: Result<nat, MigrationError>)
    // configuration errors, checked in the order of `main`, before any chain request
    ensures !IsSet(env, V1RegistryAddressVar) ==>
      r == Err(MissingEnv(V1RegistryAddressVar)) && trace == []
    ensures IsSet(env, V1RegistryAddressVar) && !IsSet(env, V2RegistryAddressVar) ==>
      r == Err(MissingEnv(V2RegistryAddressVar)) && trace == []
    ensures IsSet(env, V1RegistryAddressVar) && IsSet(env, V2RegistryAddressVar) && !IsSet(env, V1StorageIndexVar) ==>
      r == Err(MissingEnv(V1StorageIndexVar)) && trace == []
    ensures r.Err? && r.error.MissingEnv? ==> trace == [] && !Configured(env)
    // a rejected read or a falsy current block stops the run before any event query
    ensures Configured(env) && SourceStorage(env, storages).deployedBlockNumber.None? ==>
      r == Err(DeployedBlockReadFailed) && trace == Reads(env)[..2]
    ensures Configured(env) && SourceStorage(env, storages).deployedBlockNumber.Some? && blockNumber.None? ==>
      r == Err(BlockNumberReadFailed) && trace == Reads(env)
    ensures Configured(env) && SourceStorage(env, storages).deployedBlockNumber.Some? && blockNumber == Some(0) ==>
      r == Err(NoCurrentBlock) && trace == Reads(env)
    // once the scan has started, the run stops only at a query or at a registration
    ensures Configured(env) && Scannable(SourceStorage(env, storages), blockNumber) && r.Err? ==>
      r.error.QueryFailed? || r.error.RegisterFailed?
    ensures Configured(env) && r.Err? && r.error.QueryFailed? ==>
      exists queried ::
        StoppedAtQuery(SourceStorage(env, storages), blockNumber, queried, r.error) &&
        trace == Reads(env) + Queries(queried)
    // registration starts only after the whole scan
    ensures Configured(env) && r.Err? && r.error.RegisterFailed? ==>
      var storage := SourceStorage(env, storages);
      Scannable(storage, blockNumber) &&
      Collected(ScanWindows(storage, blockNumber), storage.events).Some? &&
      exists sent ::
        StoppedAtRegister(registrars(env[V2RegistryAddressVar]),
                          Collected(ScanWindows(storage, blockNumber), storage.events).value, sent, r.error) &&
        trace == Reads(env) + Queries(ScanWindows(storage, blockNumber)) + Registers(sent)
    // success: every window scanned, every batch sent and confirmed, all commitments registered
    ensures r.Ok? <==>
      Configured(env) && Scannable(SourceStorage(env, storages), blockNumber) &&
      var storage := SourceStorage(env, storages);
      var collected := Collected(ScanWindows(storage, blockNumber), storage.events);
      collected.Some? && AllConfirmed(registrars(env[V2RegistryAddressVar]), Plan(collected.value))
    ensures r.Ok? ==>
      var storage := SourceStorage(env, storages);
      var windows := ScanWindows(storage, blockNumber);
      var collected := Collected(windows, storage.events).value;
      r.value == |collected| &&
      Registered(Plan(collected)) == collected &&
      trace == Reads(env) + Queries(windows) + Registers(Plan(collected))
    // a storage deployed at or after the current block migrates nothing
    ensures (Configured(env) && Scannable(SourceStorage(env, storages), blockNumber) &&
             SourceStorage(env, storages).deployedBlockNumber.value >= blockNumber.value) ==>
      r == Ok(0) && trace == Reads(env)
  {
    trace := [];
    var v1Registry := GetRlnV1Registry(env);
    if v1Registry.Err? {
      return trace, Err(v1Registry.error);
    }
    var v2Registry := GetRlnV2Registry(env);
    if v2Registry.Err? {
      return trace, Err(v2Registry.error);
    }
    var v1Storage := GetRlnV1Storage(env, v1Registry.value, storages);
    if v1Storage.Err? {
      return trace, Err(v1Storage.error);
    }
    var storage := v1Storage.value;
    var initial := Reads(env);
    trace := if storage.deployedBlockNumber.Some? then initial else initial[..2];

    var queried, scanned := GetRlnV1Commitments(storage, blockNumber);
    trace := trace + Queries(queried);
    if scanned.Err? {
      assert !scanned.error.QueryFailed? ==> queried == [] && trace == (if storage.deployedBlockNumber.Some? then initial else initial[..2]);
      assert scanned.error.QueryFailed? ==> StoppedAtQuery(storage, blockNumber, queried, scanned.error);
      return trace, Err(scanned.error);
    }
    var commitments := scanned.value;
    EmptyRangeCollectsNothing(storage, blockNumber);

    var sent, registered := RegisterRlnV2Commitments(registrars(v2Registry.value), commitments);
    trace := trace + Registers(sent);
    if registered.Err? {
      assert StoppedAtRegister(registrars(v2Registry.value), commitments, sent, registered.error);
      return trace, Err(registered.error);
    }
    PlanRegistersAll(commitments);
    r := Ok(|commitments|);
  }

  /** A storage deployed at or after the current block gives no window and
      no commitment, hence no batch. */
  lemma EmptyRangeCollectsNothing(storage: V1Storage, blockNumber: Option<nat>)
    requires Scannable(storage, blockNumber)
    ensures storage.deployedBlockNumber.value >= blockNumber.value ==>
      ScanWindows(storage, blockNumber) == [] &&
      Collected(ScanWindows(storage, blockNumber), storage.events) == Some([]) &&
      Plan([]) == []
  {
  }
}
