/** The environment lookups of the migration script (`process.env`). A
    variable that is unset or holds the empty string is falsy in JavaScript,
    and the script throws for either. */
module Config {
  import opened Wrappers
  import opened RlnTypes

  const V1RegistryAddressVar: string := "WAKU_RLNV1_REGISTRY_ADDRESS"
  const V1StorageIndexVar: string := "WAKU_RLNV1_STORAGE_INDEX"
  const V2RegistryAddressVar: string := "WAKU_RLNV2_REGISTRY_ADDRESS"

  /** `process.env`: variable names to their values. */
  type Env = map<string, string>

  /** `process.env[name]` is truthy. */
  predicate IsSet(env: Env, name: string)
  {
    name in env && env[name] != ""
  }

  /** Reads a required variable, failing with `MissingEnv(name)` when falsy. */
  function Require(env: Env, name: string): (r: Result<string, MigrationError>)
    ensures r.Ok? <==> IsSet(env, name)
    ensures r.Ok? ==> r.value == env[name] && r.value != ""
    ensures r.Err? ==> r.error == MissingEnv(name)
  {
    if IsSet(env, name) then Ok(env[name]) else Err(MissingEnv(name))
  }

  /** `getRlnV1Registry`: the address of the v1 registry. */
  function GetRlnV1Registry(env: Env): (r: Result<string, MigrationError>)
    ensures r.Ok? <==> IsSet(env, V1RegistryAddressVar)
    ensures r.Ok? ==> r.value == env[V1RegistryAddressVar]
    ensures r.Err? ==> r.error == MissingEnv(V1RegistryAddressVar)
  {
    Require(env, V1RegistryAddressVar)
  }

  /** `getRlnV2Registry`: the address of the v2 registry. */
  function GetRlnV2Registry(env: Env): (r: Result<string, MigrationError>)
    ensures r.Ok? <==> IsSet(env, V2RegistryAddressVar)
    ensures r.Ok? ==> r.value == env[V2RegistryAddressVar]
    ensures r.Err? ==> r.error == MissingEnv(V2RegistryAddressVar)
  {
    Require(env, V2RegistryAddressVar)
  }

  /** `getRlnV1Storage`: checks the storage index, then asks the v1 registry at
      `registry` for `storages(index)`; `storages` stands for that chain lookup
      together with the contract found at the returned address. The lookup is
      made only once the index is known to be set. */
  function GetRlnV1Storage(env: Env, registry: string, storages: (string, string) -> V1Storage)
    : (r: Result<V1Storage, MigrationError>)
    ensures r.Ok? <==> IsSet(env, V1StorageIndexVar)
    ensures r.Ok? ==> r.value == storages(registry, env[V1StorageIndexVar])
    ensures r.Err? ==> r.error == MissingEnv(V1StorageIndexVar)
  {
    match Require(env, V1StorageIndexVar)
    case Err(e) => Err(e)
    case Ok(index) => Ok(storages(registry, index))
  }
}
