/** The cache of staking parameters by version, and the bounded retry behind it. */
module ParamsCache {
  import opened Wrappers
  import opened Lists
  import opened Hex
  import opened Btc
  import opened Types

  const RETRY_ATTEMPTS: nat := 5

  /** The staking module's parameters of one version, as the chain stores them; committee keys are x-only. */
  datatype RawParams = RawParams(
    minSlashingTxFeeSat: int,
    covenantPks: seq<nat>,
    slashingPkScript: Bytes,
    covenantQuorum: nat,
    slashingRate: nat,
    minCommissionRate: nat,
    unbondingTimeBlocks: nat,
    unbondingFeeSat: Int64,
    minStakingTimeBlocks: nat,
    maxStakingTimeBlocks: nat,
    minStakingValueSat: int,
    maxStakingValueSat: int)

  datatype CheckpointParams = CheckpointParams(btcConfirmationDepth: nat, checkpointFinalizationTimeout: nat)

  /** What the chain answers to one attempt; either query can fail. */
  datatype Attempt = Attempt(checkpoint: Option<CheckpointParams>, staking: Option<RawParams>)

  /** The chain over time: the answers to the n-th attempt, made for a version. `onCurve` tells which x coordinates
      belong to a point. */
  datatype Chain = Chain(
    onCurve: nat -> bool,
    attempt: (nat, nat) -> Attempt,
    published: nat -> Option<RawParams>)
  {
    /** A staking answer, when there is one, is the published version; the checkpoint answer may change at will. */
    ghost predicate Honest() {
      forall n, v :: attempt(n, v).staking.Some? ==> published(v) == attempt(n, v).staking
    }
  }

  /** The point with even y that an x-only key stands for. */
  function LiftX(onCurve: nat -> bool, x: nat): Option<PubKey> {
    if onCurve(x) then Some(PubKey(x, false)) else None
  }

  function ToVersioned(onCurve: nat -> bool, raw: RawParams): Option<Versioned> {
    var pks :- Traverse(x => LiftX(onCurve, x), raw.covenantPks);
    if raw.minStakingTimeBlocks > MAX_UINT16 || raw.maxStakingTimeBlocks > MAX_UINT16 then None
    else Some(Versioned(
                raw.minSlashingTxFeeSat, pks, raw.slashingPkScript, raw.covenantQuorum, raw.slashingRate,
                raw.minCommissionRate, raw.unbondingTimeBlocks, raw.unbondingFeeSat,
                raw.minStakingTimeBlocks, raw.maxStakingTimeBlocks, raw.minStakingValueSat, raw.maxStakingValueSat))
  }

  /** One attempt of QueryStakingParamsByVersion. */
  function QueryStakingParams(onCurve: nat -> bool, a: Attempt): Option<StakingParams> {
    var ckpt :- a.checkpoint;
    var raw :- a.staking;
    var versioned :- ToVersioned(onCurve, raw);
    Some(StakingParams(ckpt.btcConfirmationDepth, ckpt.checkpointFinalizationTimeout, versioned))
  }

  /** `v` holds the published parameters `raw`, field by field. */
  ghost predicate SameFields(onCurve: nat -> bool, raw: RawParams, v: Versioned) {
    && v.minSlashingTxFeeSat == raw.minSlashingTxFeeSat
    && |v.covenantPks| == |raw.covenantPks|
    && (forall i | 0 <= i < |raw.covenantPks| ::
          onCurve(raw.covenantPks[i]) && v.covenantPks[i] == PubKey(raw.covenantPks[i], false))
    && v.slashingPkScript == raw.slashingPkScript
    && v.covenantQuorum == raw.covenantQuorum
    && v.slashingRate == raw.slashingRate
    && v.minCommissionRate == raw.minCommissionRate
    && v.unbondingTimeBlocks == raw.unbondingTimeBlocks
    && v.unbondingFee == raw.unbondingFeeSat
    && v.minStakingTime == raw.minStakingTimeBlocks <= 65535
    && v.maxStakingTime == raw.maxStakingTimeBlocks <= 65535
    && v.minStakingValue == raw.minStakingValueSat
    && v.maxStakingValue == raw.maxStakingValueSat
  }

  /** The conversion succeeds exactly when both times fit and every committee key is a point, and then carries every
      field over. */
  lemma ToVersionedIff(onCurve: nat -> bool, raw: RawParams, v: Versioned)
    ensures ToVersioned(onCurve, raw) == Some(v) <==> SameFields(onCurve, raw, v)
  {
    TraverseIs(x => LiftX(onCurve, x), raw.covenantPks, v.covenantPks);
  }

  /** One attempt gives `params` exactly when both queries are answered with them. */
  lemma QueryIff(onCurve: nat -> bool, a: Attempt, params: StakingParams)
    ensures QueryStakingParams(onCurve, a) == Some(params) <==>
            && a.checkpoint.Some? && a.staking.Some?
            && params.confirmationTimeBlocks == a.checkpoint.value.btcConfirmationDepth
            && params.finalizationTimeoutBlocks == a.checkpoint.value.checkpointFinalizationTimeout
            && SameFields(onCurve, a.staking.value, params.versioned)
  {
    if a.staking.Some? {
      ToVersionedIff(onCurve, a.staking.value, params.versioned);
    }
  }

  /** A query the cache made and whether it succeeded. */
  datatype Query = Query(version: nat, ok: bool)

  datatype State = State(byVersion: map<nat, StakingParams>, log: seq<Query>)

  /** At most `left` attempts, stopping at the first success; the log records each of them. */
  function Retry(onCurve: nat -> bool, attempt: (nat, nat) -> Attempt, version: nat, log: seq<Query>, left: nat)
    : (r: (Option<StakingParams>, seq<Query>))
    decreases left
  {
    if left == 0 then (None, log)
    else
      match QueryStakingParams(onCurve, attempt(|log|, version))
      case Some(params) => (Some(params), log + [Query(version, true)])
      case None => Retry(onCurve, attempt, version, log + [Query(version, false)], left - 1)
  }

  function GetParams(chain: Chain, st: State, version: nat): (State, Option<StakingParams>) {
    if version in st.byVersion then (st, Some(st.byVersion[version]))
    else
      var (params, log) := Retry(chain.onCurve, chain.attempt, version, st.log, RETRY_ATTEMPTS);
      match params
      case None => (State(st.byVersion, log), None)
      case Some(p) => (State(st.byVersion[version := p], log), params)
  }

  class CacheVersionedParams {
    var paramsByVersion: map<nat, StakingParams>
    var log: seq<Query>
    const chain: Chain

    function Now(): State
      reads this
    {
      State(paramsByVersion, log)
    }

    constructor (chain: Chain)
      ensures this.chain == chain && Now() == State(map[], [])
    {
      this.chain := chain;
      paramsByVersion, log := map[], [];
    }

    method Get(version: nat) returns (r: Option<StakingParams>)
      modifies this
      ensures (Now(), r) == GetParams(chain, old(Now()), version)
    {
      if version in paramsByVersion {
        return Some(paramsByVersion[version]);
      }
      r := GetParamsByVersion(version);
      if r.None? {
        return;
      }
      paramsByVersion := paramsByVersion[version := r.value];
    }

    /** The retry loop. */
    method GetParamsByVersion(version: nat) returns (r: Option<StakingParams>)
      modifies this`log
      ensures (r, log) == Retry(chain.onCurve, chain.attempt, version, old(log), RETRY_ATTEMPTS)
    {
      var left := RETRY_ATTEMPTS;
      r := None;
      while left > 0
        invariant 0 <= left <= RETRY_ATTEMPTS && r == None
        invariant Retry(chain.onCurve, chain.attempt, version, log, left) ==
                  Retry(chain.onCurve, chain.attempt, version, old(log), RETRY_ATTEMPTS)
      {
        r := QueryStakingParams(chain.onCurve, chain.attempt(|log|, version));
        log := log + [Query(version, r.Some?)];
        if r.Some? {
          return;
        }
        left := left - 1;
      }
    }
  }

  // ---------- over whole runs ----------

  /** How often `version` was fetched successfully. */
  function Fetched(log: seq<Query>, version: nat): nat {
    if log == [] then 0
    else
      var last := log[|log| - 1];
      Fetched(log[..|log| - 1], version) + if last == Query(version, true) then 1 else 0
  }

  /** The cache holds nothing but published parameters, and exactly the versions fetched, each fetched once. */
  ghost predicate Sound(chain: Chain, st: State) {
    && (forall v | v in st.byVersion ::
          && chain.published(v).Some?
          && ToVersioned(chain.onCurve, chain.published(v).value) == Some(st.byVersion[v].versioned))
    && forall v :: Fetched(st.log, v) == if v in st.byVersion then 1 else 0
  }

  lemma {:induction false} RetryQueries(chain: Chain, version: nat, log: seq<Query>, left: nat)
    requires chain.Honest()
    ensures var (params, log') := Retry(chain.onCurve, chain.attempt, version, log, left);
            && |log| <= |log'| <= |log| + left
            && (params.None? ==> |log'| == |log| + left)
            && (forall v :: Fetched(log', v) ==
                            Fetched(log, v) + if v == version && params.Some? then 1 else 0)
            && (params.Some? ==>
                  && chain.published(version).Some?
                  && ToVersioned(chain.onCurve, chain.published(version).value) == Some(params.value.versioned)
                  && SameFields(chain.onCurve, chain.published(version).value, params.value.versioned))
    decreases left
  {
    if left > 0 {
      var r := QueryStakingParams(chain.onCurve, chain.attempt(|log|, version));
      var next := log + [Query(version, r.Some?)];
      assert next[..|next| - 1] == log;
      if r.Some? {
        ToVersionedIff(chain.onCurve, chain.published(version).value, r.value.versioned);
      }
      if r.None? {
        RetryQueries(chain, version, next, left - 1);
      }
    }
  }

  /** One lookup: a hit asks nothing and changes nothing; a miss asks at most five times, and exactly five times when it
      fails, in which case nothing is stored. */
  lemma GetIsSound(chain: Chain, st: State, version: nat)
    requires chain.Honest() && Sound(chain, st)
    ensures var (st', r) := GetParams(chain, st, version);
            && Sound(chain, st')
            && (version in st.byVersion ==> st' == st && r == Some(st.byVersion[version]))
            && |st.log| <= |st'.log| <= |st.log| + 5
            && (r.None? ==> st'.byVersion == st.byVersion && |st'.log| == |st.log| + 5)
            && (r.Some? ==> st'.byVersion == st.byVersion[version := r.value])
  {
    if version !in st.byVersion {
      RetryQueries(chain, version, st.log, RETRY_ATTEMPTS);
    }
  }

  /** The state after looking up a list of versions one after the other. */
  function RunGets(chain: Chain, st: State, versions: seq<nat>): State {
    if versions == [] then st
    else GetParams(chain, RunGets(chain, st, versions[..|versions| - 1]), versions[|versions| - 1]).0
  }

  lemma {:induction false} RunIsSound(chain: Chain, st: State, versions: seq<nat>)
    requires chain.Honest() && Sound(chain, st)
    ensures var end := RunGets(chain, st, versions);
            && Sound(chain, end)
            && |end.log| <= |st.log| + 5 * |versions|
            && (forall v | v in st.byVersion :: v in end.byVersion && end.byVersion[v] == st.byVersion[v])
            && (forall v | v in end.byVersion :: v in st.byVersion || v in versions)
  {
    if versions != [] {
      var init := versions[..|versions| - 1];
      RunIsSound(chain, st, init);
      GetIsSound(chain, RunGets(chain, st, init), versions[|versions| - 1]);
    }
  }

  /** The n-th attempt fails for this version. */
  predicate Fails(chain: Chain, n: nat, version: nat) {
    QueryStakingParams(chain.onCurve, chain.attempt(n, version)).None?
  }

  lemma {:induction false} RetryFailsIff(chain: Chain, version: nat, log: seq<Query>, left: nat)
    ensures Retry(chain.onCurve, chain.attempt, version, log, left).0.None? <==>
            forall n: nat | |log| <= n < |log| + left :: Fails(chain, n, version)
    decreases left
  {
    if left > 0 {
      RetryFailsIff(chain, version, log + [Query(version, false)], left - 1);
      assert Fails(chain, |log|, version) <==> QueryStakingParams(chain.onCurve, chain.attempt(|log|, version)).None?;
    }
  }

  /** A lookup fails exactly when the version is not cached and the next five queries all fail. */
  lemma LookupFailsIff(chain: Chain, st: State, version: nat)
    ensures GetParams(chain, st, version).1.None? <==>
            && version !in st.byVersion
            && forall n: nat | |st.log| <= n < |st.log| + 5 :: Fails(chain, n, version)
  {
    RetryFailsIff(chain, version, st.log, RETRY_ATTEMPTS);
  }

  lemma HitAnswers(chain: Chain, st: State, version: nat)
    requires version in st.byVersion
    ensures GetParams(chain, st, version) == (st, Some(st.byVersion[version]))
  {
  }

  /** An answer once given is given again, without a query, after any further lookups. */
  lemma AnswersStay(chain: Chain, st: State, version: nat, after: seq<nat>)
    requires chain.Honest() && Sound(chain, st) && version in st.byVersion
    ensures var later := RunGets(chain, st, after);
            GetParams(chain, later, version) == (later, Some(st.byVersion[version]))
  {
    RunIsSound(chain, st, after);
    HitAnswers(chain, RunGets(chain, st, after), version);
  }

  /** Some attempt for the version was answered with these checkpoint parameters. */
  ghost predicate Answered(chain: Chain, version: nat, params: StakingParams) {
    exists n: nat ::
      chain.attempt(n, version).checkpoint ==
      Some(CheckpointParams(params.confirmationTimeBlocks, params.finalizationTimeoutBlocks))
  }

  ghost predicate AllAnswered(chain: Chain, st: State) {
    forall v | v in st.byVersion :: Answered(chain, v, st.byVersion[v])
  }

  lemma {:induction false} RetryWasAnswered(chain: Chain, version: nat, log: seq<Query>, left: nat)
    ensures var params := Retry(chain.onCurve, chain.attempt, version, log, left).0;
            params.Some? ==> Answered(chain, version, params.value)
    decreases left
  {
    if left > 0 {
      var r := QueryStakingParams(chain.onCurve, chain.attempt(|log|, version));
      if r.Some? {
        QueryIff(chain.onCurve, chain.attempt(|log|, version), r.value);
      } else {
        RetryWasAnswered(chain, version, log + [Query(version, false)], left - 1);
      }
    }
  }

  lemma GetWasAnswered(chain: Chain, st: State, version: nat)
    requires AllAnswered(chain, st)
    ensures var (next, r) := GetParams(chain, st, version);
            AllAnswered(chain, next) && (r.Some? ==> Answered(chain, version, r.value))
  {
    RetryWasAnswered(chain, version, st.log, RETRY_ATTEMPTS);
  }

  lemma {:induction false} RunWasAnswered(chain: Chain, st: State, versions: seq<nat>)
    requires AllAnswered(chain, st)
    ensures AllAnswered(chain, RunGets(chain, st, versions))
  {
    if versions != [] {
      RunWasAnswered(chain, st, versions[..|versions| - 1]);
      GetWasAnswered(chain, RunGets(chain, st, versions[..|versions| - 1]), versions[|versions| - 1]);
    }
  }

  /** Over every run of lookups from an empty cache, with any failures and any checkpoint changes: an answer agrees
      with the chain on every versioned field and with some answer of the checkpoint query, each version is fetched
      successfully at most once and is cached exactly when it was fetched (so no error is ever stored), and each lookup
      makes at most five queries. */
  lemma CacheAgreesWithChain(chain: Chain, versions: seq<nat>, version: nat)
    requires chain.Honest()
    ensures var st := RunGets(chain, State(map[], []), versions);
            var r := GetParams(chain, st, version).1;
            && |st.log| <= 5 * |versions|
            && (forall v :: Fetched(st.log, v) == if v in st.byVersion then 1 else 0)
            && (r.Some? ==>
                  && chain.published(version).Some?
                  && SameFields(chain.onCurve, chain.published(version).value, r.value.versioned)
                  && Answered(chain, version, r.value))
  {
    var st := RunGets(chain, State(map[], []), versions);
    RunIsSound(chain, State(map[], []), versions);
    GetIsSound(chain, st, version);
    RunWasAnswered(chain, State(map[], []), versions);
    GetWasAnswered(chain, st, version);
    var next := GetParams(chain, st, version).0;
    if version in next.byVersion {
      ToVersionedIff(chain.onCurve, chain.published(version).value, next.byVersion[version].versioned);
    }
  }
}
