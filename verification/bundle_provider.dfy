/** The selection half of the `FIPSTestBundleProvider` interface: the static
    `get()` / `get(String)` resolution of one provider out of the registered ones.

    The registry is the sequence of provider identities (`getVersion()` of each
    provider) in discovery order; the result of a resolution is the index of the
    chosen provider in it. The environment variable and the system property are
    inputs: `None` stands for Java's `null`, i.e. "not set". */
module BundleProvider {
  import opened Wrappers

  /** A provider identity that is known to be non-empty. */
  type Identity = s: string | |s| > 0 witness "?"

  /** `FIPS1402BC2x.VERSION`. That class is not part of this model, so the value
      is left unspecified: all the model relies on is that it is not empty. */
  const DEFAULT_VERSION: Identity

  /** Name of the system property consulted second. */
  const SYS_PROP_KEY := "fips.test.bundle.version"

  /** Name of the environment variable consulted first. */
  const ENV_VAR_KEY := "FIPS_TEST_BUNDLE_VERSION"

  /** Why a resolution was refused; every one of these is an
      `IllegalArgumentException` in the source. */
  datatype Reason =
    | NoProviderForEnvVar(envValue: string)
    | NoProviderForSysProp(propValue: string)
    | NullOrEmptyVersion
    | NoProviderForVersion(version: string)

  datatype Error = IllegalArgument(reason: Reason)

  /** Where the identity to look for came from: the environment variable
      named `ENV_VAR_KEY`, the system property named `SYS_PROP_KEY`, or the
      caller's argument. */
  datatype Source =
    | FromEnvVar(envValue: string)
    | FromSysProp(propValue: string)
    | FromParameter(version: Option<string>)

  /** `i` is the position of the first provider whose identity is `id`. */
  ghost predicate IsFirstMatch(registry: seq<string>, id: string, i: int) {
    && 0 <= i < |registry|
    && registry[i] == id
    && forall j :: 0 <= j < i ==> registry[j] != id
  }

  /** `stream.filter(p -> id.equals(p.getVersion())).findFirst()`. */
  function FirstMatch(registry: seq<string>, id: string): (r: Option<nat>)
    ensures r.Some? <==> id in registry
    ensures r.Some? ==> IsFirstMatch(registry, id, r.value)
  {
    if |registry| == 0 then None
    else if registry[0] == id then Some(0)
    else match FirstMatch(registry[1..], id)
      case None => None
      case Some(k) => Some(k + 1)
  }

  /** First match, or the `IllegalArgumentException` of `orElseThrow`. */
  function Lookup(registry: seq<string>, id: string, reason: Reason): Result<nat, Error> {
    match FirstMatch(registry, id)
    case Some(i) => Success(i)
    case None => Failure(IllegalArgument(reason))
  }

  /** `r` is what a first-match scan for `id` must produce: the first provider
      with that identity, or the error `reason` when there is none. */
  ghost predicate Resolves(registry: seq<string>, id: string, reason: Reason, r: Result<nat, Error>) {
    && (r.Success? <==> id in registry)
    && (r.Success? ==> IsFirstMatch(registry, id, r.value))
    && (r.Failure? ==> r.error == IllegalArgument(reason))
  }

  /** The precedence rule: a set environment variable wins, even when empty;
      otherwise a set system property; otherwise the caller's argument. */
  function SelectSource(env: Option<string>, sysProp: Option<string>, version: Option<string>): Source {
    if env.Some? then FromEnvVar(env.value)
    else if sysProp.Some? then FromSysProp(sysProp.value)
    else FromParameter(version)
  }

  /** `FIPSTestBundleProvider.get(version)`; `env` is the value of the
      environment variable `ENV_VAR_KEY` and `sysProp` that of the system
      property `SYS_PROP_KEY`. */
  function Get(env: Option<string>, sysProp: Option<string>, version: Option<string>, registry: seq<string>)
    : (r: Result<nat, Error>)
    ensures env.Some? ==> Resolves(registry, env.value, NoProviderForEnvVar(env.value), r)
    ensures env.None? && sysProp.Some? ==>
      Resolves(registry, sysProp.value, NoProviderForSysProp(sysProp.value), r)
    ensures env.None? && sysProp.None? && (version.None? || version.value == "") ==>
      r == Failure(IllegalArgument(NullOrEmptyVersion))
    ensures env.None? && sysProp.None? && version.Some? && version.value != "" ==>
      Resolves(registry, version.value, NoProviderForVersion(version.value), r)
  {
    match SelectSource(env, sysProp, version)
    case FromEnvVar(v) => Lookup(registry, v, NoProviderForEnvVar(v))
    case FromSysProp(v) => Lookup(registry, v, NoProviderForSysProp(v))
    case FromParameter(v) =>
      if v.None? || v.value == "" then Failure(IllegalArgument(NullOrEmptyVersion))
      else Lookup(registry, v.value, NoProviderForVersion(v.value))
  }

  /** `FIPSTestBundleProvider.get()`. */
  function GetDefault(env: Option<string>, sysProp: Option<string>, registry: seq<string>)
    : (r: Result<nat, Error>)
    ensures r == Get(env, sysProp, Some(DEFAULT_VERSION), registry)
    ensures env.None? && sysProp.None? ==>
      Resolves(registry, DEFAULT_VERSION, NoProviderForVersion(DEFAULT_VERSION), r)
  {
    Get(env, sysProp, Some(DEFAULT_VERSION), registry)
  }

  /** A set environment variable decides alone: the system property and the
      argument are never looked at. */
  lemma EnvVarIgnoresOtherInputs(envValue: string, sysProp1: Option<string>, sysProp2: Option<string>,
                                 version1: Option<string>, version2: Option<string>, registry: seq<string>)
    ensures Get(Some(envValue), sysProp1, version1, registry) == Get(Some(envValue), sysProp2, version2, registry)
    ensures Get(Some(envValue), sysProp1, version1, registry) == Lookup(registry, envValue, NoProviderForEnvVar(envValue))
  {
  }

  /** With no environment variable, a set system property decides alone. */
  lemma SysPropIgnoresVersion(propValue: string, version1: Option<string>, version2: Option<string>, registry: seq<string>)
    ensures Get(None, Some(propValue), version1, registry) == Get(None, Some(propValue), version2, registry)
    ensures Get(None, Some(propValue), version1, registry) == Lookup(registry, propValue, NoProviderForSysProp(propValue))
  {
  }

  /** No fallback: an override naming no provider fails even though the
      argument names one. */
  lemma NoFallback(env: Option<string>, sysProp: Option<string>, version: string, registry: seq<string>)
    requires env.Some? ==> env.value !in registry
    requires env.None? ==> sysProp.Some? && sysProp.value !in registry
    requires version in registry
    ensures Get(env, sysProp, Some(version), registry).Failure?
  {
  }

  /** An empty environment variable is "set", not "absent": it is looked up,
      and fails unless some provider has the empty identity. */
  lemma EmptyEnvVarIsNotAbsent(sysProp: Option<string>, version: Option<string>, registry: seq<string>)
    requires forall i :: 0 <= i < |registry| ==> registry[i] != ""
    ensures Get(Some(""), sysProp, version, registry) == Failure(IllegalArgument(NoProviderForEnvVar("")))
  {
  }

  /** Whatever the registry holds, a null or empty argument with no override
      fails; a non-empty argument naming no provider fails too. */
  lemma RejectsBadVersion(version: Option<string>, registry: seq<string>)
    requires version.None? || version.value == "" || version.value !in registry
    ensures Get(None, None, version, registry).Failure?
  {
  }

  /** The identity the precedence rule asks the registry for; `None` when it
      falls to a null or empty argument, which is never looked up. */
  function SelectedIdentity(env: Option<string>, sysProp: Option<string>, version: Option<string>): Option<string> {
    match SelectSource(env, sysProp, version)
    case FromEnvVar(v) => Some(v)
    case FromSysProp(v) => Some(v)
    case FromParameter(v) => if v.None? || v.value == "" then None else v
  }

  /** `get` succeeds exactly when the selected identity is registered, and
      then returns the first provider carrying it. */
  lemma GetIsFirstMatchOfSelected(env: Option<string>, sysProp: Option<string>, version: Option<string>,
                                  registry: seq<string>)
    ensures var id := SelectedIdentity(env, sysProp, version);
            Get(env, sysProp, version, registry).Success? <==> id.Some? && id.value in registry
    ensures var id := SelectedIdentity(env, sysProp, version);
            Get(env, sysProp, version, registry).Success? ==>
              IsFirstMatch(registry, id.value, Get(env, sysProp, version, registry).value)
  {
  }

  /** With no override set, `get()` finds the default provider exactly when
      one is registered. */
  lemma DefaultResolvesWhenRegistered(registry: seq<string>)
    requires DEFAULT_VERSION in registry
    ensures GetDefault(None, None, registry).Success?
    ensures registry[GetDefault(None, None, registry).value] == DEFAULT_VERSION
  {
  }
}
