/** The filter of the scan with the real parameter cache. */
module CachedFilter {
  import opened Wrappers
  import opened Btc
  import opened Types
  import opened Covenant
  import PC = ParamsCache

  function InCommitteeFrom(chain: PC.Chain, cache: PC.State, x: nat, del: Delegation): (PC.State, Option<bool>) {
    var (next, found) := PC.GetParams(chain, cache, del.paramsVersion);
    (next, if found.None? then None else Some(InCommittee(x, found.value.versioned)))
  }

  function ValidateFrom(
    st: Staking, chain: PC.Chain, cache: PC.State, x: nat, exp: StakeExpansion, prev: Delegation)
    : (PC.State, Option<bool>)
  {
    var prevTx := st.lib.TxFromHex(prev.stakingTxHex);
    if prevTx.None? || st.hashText(st.txHash(prevTx.value)) != exp.previousStakingTxHashHex then (cache, None)
    else InCommitteeFrom(chain, cache, x, prev)
  }

  /** The filter's answer to a delegation, with the cache it leaves. */
  function AcceptFrom(
    st: Staking, chain: PC.Chain, cache: PC.State, query: string -> Option<Delegation>, pk: PubKey, del: Delegation)
    : (PC.State, Option<bool>)
  {
    var prev := if del.stakeExpansion.Some? then query(del.stakeExpansion.value.previousStakingTxHashHex) else None;
    if del.stakeExpansion.Some? && prev.None? then (cache, None)
    else if AlreadySigned(XOnly(pk), del) then (cache, Some(false))
    else
      var (next, member) := InCommitteeFrom(chain, cache, XOnly(pk), del);
      if member != Some(true) || del.stakeExpansion.None? then (next, member)
      else ValidateFrom(st, chain, next, XOnly(pk), del.stakeExpansion.value, prev.value)
  }

  method IsKeyInCommittee(cache: PC.CacheVersionedParams, x: nat, del: Delegation) returns (r: Option<bool>)
    modifies cache
    ensures (cache.Now(), r) == InCommitteeFrom(cache.chain, old(cache.Now()), x, del)
  {
    var found := cache.Get(del.paramsVersion);
    if found.None? {
      return None;
    }
    var i := 0;
    var pks := found.value.versioned.covenantPks;
    while i < |pks|
      invariant 0 <= i <= |pks| && forall j | 0 <= j < i :: XOnly(pks[j]) != x
    {
      if XOnly(pks[i]) == x {
        return Some(true);
      }
      i := i + 1;
    }
    r := Some(false);
  }

  method FindSignature(x: nat, del: Delegation) returns (found: bool)
    ensures found <==> AlreadySigned(x, del)
  {
    var i := 0;
    while i < |del.covenantSigs|
      invariant 0 <= i <= |del.covenantSigs| && forall j | 0 <= j < i :: XOnly(del.covenantSigs[j].pk) != x
    {
      if XOnly(del.covenantSigs[i].pk) == x {
        return true;
      }
      i := i + 1;
    }
    found := false;
  }

  method ValidatePrevious(
    st: Staking, cache: PC.CacheVersionedParams, x: nat, exp: StakeExpansion, prev: Delegation)
    returns (r: Option<bool>)
    modifies cache
    ensures (cache.Now(), r) == ValidateFrom(st, cache.chain, old(cache.Now()), x, exp, prev)
  {
    var prevTx :- st.lib.TxFromHex(prev.stakingTxHex);
    if st.hashText(st.txHash(prevTx)) != exp.previousStakingTxHashHex {
      return None;
    }
    r := IsKeyInCommittee(cache, x, prev);
  }

  /** Emulator.acceptDelegationToSign. */
  method AcceptDelegation(
    st: Staking, cache: PC.CacheVersionedParams, query: string -> Option<Delegation>, pk: PubKey, del: Delegation)
    returns (r: Option<bool>)
    modifies cache
    ensures (cache.Now(), r) == AcceptFrom(st, cache.chain, old(cache.Now()), query, pk, del)
  {
    var prev: Option<Delegation> := None;
    if del.stakeExpansion.Some? {
      prev := query(del.stakeExpansion.value.previousStakingTxHashHex);
      if prev.None? {
        return None;
      }
    }
    var signed := FindSignature(XOnly(pk), del);
    if signed {
      return Some(false);
    }
    var member :- IsKeyInCommittee(cache, XOnly(pk), del);
    if !member {
      return Some(false);
    }
    if del.stakeExpansion.None? {
      return Some(true);
    }
    r := ValidatePrevious(st, cache, XOnly(pk), del.stakeExpansion.value, prev.value);
  }

  // ---------- the cached filter is the filter ----------

  /** What the cache holds. */
  function Held(cache: PC.State): nat -> Option<Versioned> {
    (v: nat) => if v in cache.byVersion then Some(cache.byVersion[v].versioned) else None
  }

  ghost predicate Grown(a: PC.State, b: PC.State) {
    forall v | v in a.byVersion :: v in b.byVersion && b.byVersion[v] == a.byVersion[v]
  }

  lemma GetGrows(chain: PC.Chain, cache: PC.State, v: nat)
    ensures var (next, found) := PC.GetParams(chain, cache, v);
            && Grown(cache, next)
            && Held(next)(v) == if found.None? then None else Some(found.value.versioned)
  {
  }

  lemma InCommitteeFromIs(
    chain: PC.Chain, cache: PC.State, query: string -> Option<Delegation>, x: nat, del: Delegation)
    ensures var (next, r) := InCommitteeFrom(chain, cache, x, del);
            Grown(cache, next) && r == Covenant.IsKeyInCommittee(World(Held(next), query), x, del)
  {
    GetGrows(chain, cache, del.paramsVersion);
  }

  lemma ValidateFromIs(
    st: Staking, chain: PC.Chain, cache: PC.State, query: string -> Option<Delegation>, x: nat, exp: StakeExpansion,
    prev: Delegation)
    ensures var (next, r) := ValidateFrom(st, chain, cache, x, exp, prev);
            Grown(cache, next) && r == ValidateStakeExpansion(st, World(Held(next), query), x, exp, Some(prev))
  {
    InCommitteeFromIs(chain, cache, query, x, prev);
  }

  /** The answer is that of the plain filter under what the cache holds afterwards: a lookup that succeeded is held, one
      that failed is not. */
  lemma AcceptFromIsAccept(
    st: Staking, chain: PC.Chain, cache: PC.State, query: string -> Option<Delegation>, pk: PubKey, del: Delegation)
    ensures var (next, r) := AcceptFrom(st, chain, cache, query, pk, del);
            Grown(cache, next) && r == Accept(st, World(Held(next), query), pk, del)
  {
    InCommitteeFromIs(chain, cache, query, XOnly(pk), del);
    if del.stakeExpansion.Some? {
      var exp := del.stakeExpansion.value;
      var prev := query(exp.previousStakingTxHashHex);
      if prev.Some? {
        var next := InCommitteeFrom(chain, cache, XOnly(pk), del).0;
        ValidateFromIs(st, chain, next, query, XOnly(pk), exp, prev.value);
        InCommitteeStays(next, ValidateFrom(st, chain, next, XOnly(pk), exp, prev.value).0, query, XOnly(pk), del);
      }
    }
  }

  lemma InCommitteeStays(a: PC.State, b: PC.State, query: string -> Option<Delegation>, x: nat, del: Delegation)
    requires Grown(a, b)
    ensures Covenant.IsKeyInCommittee(World(Held(a), query), x, del).Some? ==>
              Covenant.IsKeyInCommittee(World(Held(b), query), x, del) ==
              Covenant.IsKeyInCommittee(World(Held(a), query), x, del)
  {
  }

  /** An answer stays as the cache grows. */
  lemma AcceptStays(
    st: Staking, a: PC.State, b: PC.State, query: string -> Option<Delegation>, pk: PubKey, del: Delegation)
    requires Grown(a, b) && Accept(st, World(Held(a), query), pk, del).Some?
    ensures Accept(st, World(Held(b), query), pk, del) == Accept(st, World(Held(a), query), pk, del)
  {
  }

  lemma ValidateFromKeepsSound(
    st: Staking, chain: PC.Chain, cache: PC.State, x: nat, exp: StakeExpansion, prev: Delegation)
    requires chain.Honest() && PC.Sound(chain, cache)
    ensures PC.Sound(chain, ValidateFrom(st, chain, cache, x, exp, prev).0)
  {
    PC.GetIsSound(chain, cache, prev.paramsVersion);
  }

  lemma AcceptFromKeepsSound(
    st: Staking, chain: PC.Chain, cache: PC.State, query: string -> Option<Delegation>, pk: PubKey, del: Delegation)
    requires chain.Honest() && PC.Sound(chain, cache)
    ensures PC.Sound(chain, AcceptFrom(st, chain, cache, query, pk, del).0)
  {
    PC.GetIsSound(chain, cache, del.paramsVersion);
    if del.stakeExpansion.Some? {
      var exp := del.stakeExpansion.value;
      var prev := query(exp.previousStakingTxHashHex);
      if prev.Some? {
        ValidateFromKeepsSound(st, chain, PC.GetParams(chain, cache, del.paramsVersion).0, XOnly(pk), exp, prev.value);
      }
    }
  }
}
